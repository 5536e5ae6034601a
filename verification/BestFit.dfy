/**
 Best Fit Decreasing bin packing of sequence lengths into micro-batches of bounded token count,
 and its approximation ratio: never more than 3/2 of the bins any packing needs.
*/
module BestFit {
  import opened Sequences
  import opened Outcomes

  // ---------------------------------------------------------------- the algorithm on values

  /** Inserts index i behind every index that is at least as long. */
  function InsertDown(lens: seq<nat>, i: nat, s: seq<nat>): (r: seq<nat>)
    ensures |r| == |s| + 1
  {
    if s == [] then [i]
    else if LengthAt(lens, i) > LengthAt(lens, s[0]) then [i] + s
    else [s[0]] + InsertDown(lens, i, s[1..])
  }

  /** The first n indices, longest first, equal lengths in index order. */
  function OrderDown(lens: seq<nat>, n: nat): (r: seq<nat>)
    ensures |r| == n
  {
    if n == 0 then [] else InsertDown(lens, n - 1, OrderDown(lens, n - 1))
  }

  predicate Fits(lens: seq<nat>, cap: nat, part: seq<nat>, len: nat) {
    Load(lens, part) + len <= cap
  }

  /** The fullest of the first n groups that still has room, the earliest among equals; -1 if none. */
  function Best(lens: seq<nat>, cap: nat, parts: seq<seq<nat>>, len: nat, n: nat): (b: int)
    requires n <= |parts|
    ensures -1 <= b < n
    ensures b >= 0 ==> Fits(lens, cap, parts[b], len)
    ensures forall g :: 0 <= g < n && Fits(lens, cap, parts[g], len) ==>
      b >= 0 && (if g < b then Load(lens, parts[g]) < Load(lens, parts[b])
                 else Load(lens, parts[g]) <= Load(lens, parts[b]))
  {
    if n == 0 then -1
    else
      var b := Best(lens, cap, parts, len, n - 1);
      if Fits(lens, cap, parts[n - 1], len) && (b == -1 || Load(lens, parts[n - 1]) > Load(lens, parts[b]))
      then n - 1 else b
  }

  function Put(lens: seq<nat>, cap: nat, parts: seq<seq<nat>>, i: nat): seq<seq<nat>> {
    var b := Best(lens, cap, parts, LengthAt(lens, i), |parts|);
    if b == -1 then parts + [[i]] else parts[b := parts[b] + [i]]
  }

  /** The groups after the first n indices of `order` are placed. */
  function Pack(lens: seq<nat>, cap: nat, order: seq<nat>, n: nat): seq<seq<nat>>
    requires n <= |order|
  {
    if n == 0 then [] else Put(lens, cap, Pack(lens, cap, order, n - 1), order[n - 1])
  }

  function Groups(lens: seq<nat>, cap: nat): seq<seq<nat>> {
    Pack(lens, cap, OrderDown(lens, |lens|), |lens|)
  }

  // ---------------------------------------------------------------- the order

  lemma {:induction false} InsertDownMultiset(lens: seq<nat>, i: nat, s: seq<nat>)
    ensures multiset(InsertDown(lens, i, s)) == multiset(s) + multiset{i}
  {
    if s != [] {
      InsertDownMultiset(lens, i, s[1..]);
      assert s == [s[0]] + s[1..];
    }
  }

  ghost predicate LongestFirst(lens: seq<nat>, s: seq<nat>) {
    forall a, b :: 0 <= a < b < |s| ==> LengthAt(lens, s[a]) >= LengthAt(lens, s[b])
  }

  lemma {:induction false} InsertDownLongestFirst(lens: seq<nat>, i: nat, s: seq<nat>)
    requires LongestFirst(lens, s)
    ensures LongestFirst(lens, InsertDown(lens, i, s))
  {
    if s != [] && LengthAt(lens, i) <= LengthAt(lens, s[0]) {
      InsertDownLongestFirst(lens, i, s[1..]);
      InsertDownMultiset(lens, i, s[1..]);
      var r := InsertDown(lens, i, s[1..]);
      forall b | 0 <= b < |r| ensures LengthAt(lens, s[0]) >= LengthAt(lens, r[b]) {
        assert r[b] in multiset(r);
        assert r[b] == i || r[b] in s[1..];
      }
    }
  }

  lemma {:induction false} OrderDownCorrect(lens: seq<nat>, n: nat)
    ensures LongestFirst(lens, OrderDown(lens, n))
    ensures multiset(OrderDown(lens, n)) == multiset(Range(n))
  {
    if n > 0 {
      OrderDownCorrect(lens, n - 1);
      InsertDownLongestFirst(lens, n - 1, OrderDown(lens, n - 1));
      InsertDownMultiset(lens, n - 1, OrderDown(lens, n - 1));
      assert Range(n) == Range(n - 1) + [n - 1];
    }
  }

  /** The item at a is longer than the one at b, or as long with the smaller index. */
  ghost predicate PlacedFirst(lens: seq<nat>, s: seq<nat>, a: nat, b: nat)
    requires a < |s| && b < |s|
  {
    LengthAt(lens, s[a]) > LengthAt(lens, s[b]) || (LengthAt(lens, s[a]) == LengthAt(lens, s[b]) && s[a] < s[b])
  }

  ghost predicate InPlacingOrder(lens: seq<nat>, s: seq<nat>) {
    forall a, b {:trigger PlacedFirst(lens, s, a, b)} :: 0 <= a < b < |s| ==> PlacedFirst(lens, s, a, b)
  }

  lemma {:induction false} InsertDownInOrder(lens: seq<nat>, i: nat, s: seq<nat>)
    requires InPlacingOrder(lens, s) && forall b :: 0 <= b < |s| ==> s[b] < i
    ensures InPlacingOrder(lens, InsertDown(lens, i, s))
  {
    var r := InsertDown(lens, i, s);
    if s != [] {
      forall a: nat, b: nat | a < b < |s[1..]| ensures PlacedFirst(lens, s[1..], a, b) {
        assert PlacedFirst(lens, s, a + 1, b + 1);
      }
      InsertDownInOrder(lens, i, s[1..]);
      InsertDownMultiset(lens, i, s[1..]);
      forall a: nat, b: nat | a < b < |r| ensures PlacedFirst(lens, r, a, b) {
        InsertedPair(lens, i, s, a, b);
      }
    }
  }

  lemma {:induction false} InsertedPair(lens: seq<nat>, i: nat, s: seq<nat>, a: nat, b: nat)
    requires s != [] && InPlacingOrder(lens, s) && forall c :: 0 <= c < |s| ==> s[c] < i
    requires InPlacingOrder(lens, InsertDown(lens, i, s[1..]))
    requires multiset(InsertDown(lens, i, s[1..])) == multiset(s[1..]) + multiset{i}
    requires a < b < |InsertDown(lens, i, s)|
    ensures PlacedFirst(lens, InsertDown(lens, i, s), a, b)
  {
    var r, rest := InsertDown(lens, i, s), InsertDown(lens, i, s[1..]);
    if LengthAt(lens, i) > LengthAt(lens, s[0]) {
      assert b > 1 ==> PlacedFirst(lens, s, 0, b - 1);
      assert a > 0 ==> PlacedFirst(lens, s, a - 1, b - 1);
    } else if a > 0 {
      assert PlacedFirst(lens, rest, a - 1, b - 1);
    } else {
      assert rest[b - 1] in multiset(rest);
      if rest[b - 1] != i {
        var c :| 0 <= c < |s[1..]| && s[1..][c] == rest[b - 1];
        assert PlacedFirst(lens, s, 0, c + 1);
      }
    }
  }

  /** Items are placed longest first, and items of one length in the order of their indices. */
  lemma {:induction false} OrderDownIs(lens: seq<nat>, n: nat)
    ensures InPlacingOrder(lens, OrderDown(lens, n))
    ensures multiset(OrderDown(lens, n)) == multiset(Range(n))
  {
    OrderDownCorrect(lens, n);
    if n > 0 {
      OrderDownIs(lens, n - 1);
      BelowCount(OrderDown(lens, n - 1), n - 1);
      InsertDownInOrder(lens, n - 1, OrderDown(lens, n - 1));
    }
  }

  lemma {:induction false} BelowCount(s: seq<nat>, n: nat)
    requires multiset(s) == multiset(Range(n))
    ensures forall b :: 0 <= b < |s| ==> s[b] < n
  {
    forall b | 0 <= b < |s| ensures s[b] < n {
      assert s[b] in multiset(Range(n));
    }
  }

  // ---------------------------------------------------------------- what every placement keeps

  function First(lens: seq<nat>, part: seq<nat>): nat {
    if part == [] then 0 else LengthAt(lens, part[0])
  }

  /** Neither the first nor the second item of the later group fits into the earlier one. */
  ghost predicate Closed(lens: seq<nat>, cap: nat, early: seq<nat>, late: seq<nat>) {
    && First(lens, early) >= First(lens, late)
    && Load(lens, early) + First(lens, late) > cap
    && (|late| > 1 ==> Load(lens, early) + LengthAt(lens, late[1]) > cap)
  }

  /** What holds after every placement. */
  ghost predicate Tight(lens: seq<nat>, cap: nat, parts: seq<seq<nat>>) {
    && (forall g :: 0 <= g < |parts| ==> parts[g] != [] && Load(lens, parts[g]) <= cap)
    && (forall h, g :: 0 <= h < g < |parts| ==> Closed(lens, cap, parts[h], parts[g]))
  }

  lemma {:induction false} FirstBelowLoad(lens: seq<nat>, part: seq<nat>)
    requires part != []
    ensures First(lens, part) <= Load(lens, part)
    ensures |part| == 1 ==> First(lens, part) == Load(lens, part)
    ensures |part| > 1 ==> First(lens, part) + LengthAt(lens, part[1]) <= Load(lens, part)
  {
    if |part| > 1 {
      assert part[1..][0] == part[1];
    }
  }

  lemma {:induction false} PutOpens(lens: seq<nat>, cap: nat, parts: seq<seq<nat>>, i: nat)
    requires Tight(lens, cap, parts) && LengthAt(lens, i) <= cap
    requires forall g :: 0 <= g < |parts| ==> First(lens, parts[g]) >= LengthAt(lens, i)
    requires Best(lens, cap, parts, LengthAt(lens, i), |parts|) == -1
    ensures Tight(lens, cap, parts + [[i]])
  {
    FirstBelowLoad(lens, [i]);
    forall h | 0 <= h < |parts| ensures Closed(lens, cap, parts[h], [i]) {
      assert !Fits(lens, cap, parts[h], LengthAt(lens, i));
    }
  }

  /** Growing the earlier group keeps the pair closed. */
  lemma {:induction false} GrowEarly(lens: seq<nat>, cap: nat, early: seq<nat>, late: seq<nat>, i: nat)
    requires Closed(lens, cap, early, late) && early != []
    ensures Closed(lens, cap, early + [i], late)
  {
    LoadPush(lens, early, i);
  }

  /** A group takes its second item only when that item fits into no earlier group. */
  lemma {:induction false} GrowLate(lens: seq<nat>, cap: nat, early: seq<nat>, late: seq<nat>, i: nat)
    requires Closed(lens, cap, early, late) && early != [] && late != []
    requires Fits(lens, cap, early, LengthAt(lens, i)) ==> Load(lens, early) < Load(lens, late)
    ensures Closed(lens, cap, early, late + [i])
  {
    FirstBelowLoad(lens, early);
    FirstBelowLoad(lens, late);
    assert |late| > 1 ==> (late + [i])[1] == late[1];
  }

  lemma {:induction false} PutJoins(lens: seq<nat>, cap: nat, parts: seq<seq<nat>>, i: nat, b: nat)
    requires Tight(lens, cap, parts) && b < |parts|
    requires b == Best(lens, cap, parts, LengthAt(lens, i), |parts|)
    ensures Tight(lens, cap, parts[b := parts[b] + [i]])
  {
    var next := parts[b := parts[b] + [i]];
    LoadPush(lens, parts[b], i);
    forall h, g | 0 <= h < g < |next| ensures Closed(lens, cap, next[h], next[g]) {
      assert Closed(lens, cap, parts[h], parts[g]);
      if h == b {
        GrowEarly(lens, cap, parts[h], parts[g], i);
      } else if g == b {
        GrowLate(lens, cap, parts[h], parts[g], i);
      }
    }
  }

  lemma {:induction false} PutTight(lens: seq<nat>, cap: nat, parts: seq<seq<nat>>, i: nat)
    requires Tight(lens, cap, parts) && LengthAt(lens, i) <= cap
    requires forall g :: 0 <= g < |parts| ==> First(lens, parts[g]) >= LengthAt(lens, i)
    ensures Tight(lens, cap, Put(lens, cap, parts, i))
  {
    var b := Best(lens, cap, parts, LengthAt(lens, i), |parts|);
    if b == -1 {
      PutOpens(lens, cap, parts, i);
    } else {
      PutJoins(lens, cap, parts, i, b);
    }
  }

  lemma {:induction false} PutMultiset(lens: seq<nat>, cap: nat, parts: seq<seq<nat>>, i: nat)
    ensures multiset(Flatten<nat>(Put(lens, cap, parts, i))) == multiset(Flatten<nat>(parts)) + multiset{i}
  {
    var b := Best(lens, cap, parts, LengthAt(lens, i), |parts|);
    if b == -1 {
      FlattenPush<nat>(parts, [i]);
    } else {
      FlattenGrow(parts, b, i);
    }
  }

  lemma {:induction false} FlattenGrow(parts: seq<seq<nat>>, b: nat, i: nat)
    requires b < |parts|
    ensures multiset(Flatten<nat>(parts[b := parts[b] + [i]])) == multiset(Flatten<nat>(parts)) + multiset{i}
  {
    var next := parts[b := parts[b] + [i]];
    if b > 0 {
      FlattenGrow(parts[1..], b - 1, i);
      assert next[1..] == parts[1..][b - 1 := parts[b] + [i]];
    } else {
      assert next[1..] == parts[1..];
    }
  }

  lemma {:induction false} PackMultiset(lens: seq<nat>, cap: nat, order: seq<nat>, n: nat)
    requires n <= |order|
    ensures multiset(Flatten<nat>(Pack(lens, cap, order, n))) == multiset(order[..n])
  {
    if n > 0 {
      PackMultiset(lens, cap, order, n - 1);
      var before, after := Pack(lens, cap, order, n - 1), Pack(lens, cap, order, n);
      assert after == Put(lens, cap, before, order[n - 1]);
      PackStepMultiset(lens, cap, order, n, before, after);
    }
  }

  lemma {:induction false} PackStepMultiset(lens: seq<nat>, cap: nat, order: seq<nat>, n: nat, before: seq<seq<nat>>,
        after: seq<seq<nat>>)
    requires 0 < n <= |order| && after == Put(lens, cap, before, order[n - 1])
    requires multiset(Flatten<nat>(before)) == multiset(order[..n - 1])
    ensures multiset(Flatten<nat>(after)) == multiset(order[..n])
  {
    PutMultiset(lens, cap, before, order[n - 1]);
    MultisetPush<nat>(order, n - 1);
  }

  lemma {:induction false} PackedBefore(lens: seq<nat>, cap: nat, order: seq<nat>, n: nat, g: nat)
    requires n < |order| && LongestFirst(lens, order)
    requires g < |Pack(lens, cap, order, n)| && Pack(lens, cap, order, n)[g] != []
    ensures First(lens, Pack(lens, cap, order, n)[g]) >= LengthAt(lens, order[n])
  {
    var parts := Pack(lens, cap, order, n);
    var x := parts[g][0];
    FlattenMember<nat>(parts, g, x);
    PackMultiset(lens, cap, order, n);
    assert x in multiset(order[..n]);
    assert exists a :: 0 <= a < n && order[a] == x;
  }

  lemma {:induction false} PackTight(lens: seq<nat>, cap: nat, order: seq<nat>, n: nat)
    requires n <= |order| && LongestFirst(lens, order)
    requires forall j :: 0 <= j < |lens| ==> lens[j] <= cap
    ensures Tight(lens, cap, Pack(lens, cap, order, n))
  {
    if n > 0 {
      var parts := Pack(lens, cap, order, n - 1);
      PackTight(lens, cap, order, n - 1);
      forall g | 0 <= g < |parts| ensures First(lens, parts[g]) >= LengthAt(lens, order[n - 1]) {
        PackedBefore(lens, cap, order, n - 1, g);
      }
      PutTight(lens, cap, parts, order[n - 1]);
    }
  }

  /** Every index is placed exactly once, no group is empty and none exceeds the cap. */
  lemma {:induction false} GroupsValid(lens: seq<nat>, cap: nat)
    requires forall j :: 0 <= j < |lens| ==> lens[j] <= cap
    ensures IsPartition(Groups(lens, cap), |lens|)
    ensures Tight(lens, cap, Groups(lens, cap))
  {
    var order := OrderDown(lens, |lens|);
    OrderDownCorrect(lens, |lens|);
    PackTight(lens, cap, order, |lens|);
    PackMultiset(lens, cap, order, |lens|);
    assert order[..|lens|] == order;
  }

  // ---------------------------------------------------------------- where every item goes

  /** Groups only grow at their ends. */
  ghost predicate Extends(early: seq<seq<nat>>, late: seq<seq<nat>>) {
    |early| <= |late| && forall h :: 0 <= h < |early| ==> early[h] <= late[h]
  }

  lemma {:induction false} PackExtends(lens: seq<nat>, cap: nat, order: seq<nat>, n: nat, m: nat)
    requires n <= m <= |order|
    ensures Extends(Pack(lens, cap, order, n), Pack(lens, cap, order, m))
  {
    if n < m {
      PackExtends(lens, cap, order, n, m - 1);
      PutExtends(lens, cap, Pack(lens, cap, order, m - 1), order[m - 1]);
    }
  }

  lemma {:induction false} PutExtends(lens: seq<nat>, cap: nat, parts: seq<seq<nat>>, i: nat)
    ensures Extends(parts, Put(lens, cap, parts, i))
  {
  }

  /** Group g of `before` has room for the length, and no group with room is fuller, nor an earlier one as full. */
  ghost predicate FullestWithRoom(lens: seq<nat>, cap: nat, before: seq<seq<nat>>, len: nat, g: nat)
    requires g < |before|
  {
    && Load(lens, before[g]) + len <= cap
    && forall h :: 0 <= h < |before| && Load(lens, before[h]) + len <= cap ==>
         if h < g then Load(lens, before[h]) < Load(lens, before[g]) else Load(lens, before[h]) <= Load(lens, before[g])
  }

  /** The item stands in group g behind what the group held before, and g was the place for it. */
  ghost predicate PlacedBehind(lens: seq<nat>, cap: nat, before: seq<seq<nat>>, groups: seq<seq<nat>>, i: nat, g: nat) {
    if g < |before| then
      && g < |groups| && |before[g]| < |groups[g]| && groups[g][|before[g]|] == i
      && FullestWithRoom(lens, cap, before, LengthAt(lens, i), g)
    else
      && g == |before| < |groups| && groups[g] != [] && groups[g][0] == i
      && forall h :: 0 <= h < |before| ==> Load(lens, before[h]) + LengthAt(lens, i) > cap
  }

  lemma {:induction false} PutPlaces(lens: seq<nat>, cap: nat, before: seq<seq<nat>>, groups: seq<seq<nat>>, i: nat)
    returns (g: nat)
    requires Extends(Put(lens, cap, before, i), groups)
    ensures PlacedBehind(lens, cap, before, groups, i, g)
  {
    var b := Best(lens, cap, before, LengthAt(lens, i), |before|);
    var after := Put(lens, cap, before, i);
    if b == -1 {
      g := |before|;
      assert after[g] == [i] && after[g] <= groups[g];
    } else {
      g := b;
      assert after[g] == before[g] + [i] && after[g] <= groups[g];
    }
  }

  /**
   Best Fit Decreasing, item by item. When the n-th item is placed, the groups hold the first n items;
   the item goes to the fullest of them that has room, the earliest among equals, or opens a group
   when none has room; and nothing that was placed moves again.
  */
  lemma {:induction false} PlacedBest(lens: seq<nat>, cap: nat, order: seq<nat>, n: nat)
    returns (before: seq<seq<nat>>, g: nat)
    requires multiset(order) == multiset(Range(|lens|)) && InPlacingOrder(lens, order) && n < |order|
    ensures multiset(Flatten<nat>(before)) == multiset(order[..n]) && Extends(before, Groups(lens, cap))
    ensures PlacedBehind(lens, cap, before, Groups(lens, cap), order[n], g)
  {
    OrderDownIs(lens, |lens|);
    OrderIsOne(lens, order, OrderDown(lens, |lens|));
    before := Pack(lens, cap, order, n);
    PackMultiset(lens, cap, order, n);
    PackExtends(lens, cap, order, n, |lens|);
    PackExtends(lens, cap, order, n + 1, |lens|);
    g := PutPlaces(lens, cap, before, Groups(lens, cap), order[n]);
  }

  lemma {:induction false} OrderTail(lens: seq<nat>, s: seq<nat>)
    requires s != [] && InPlacingOrder(lens, s)
    ensures InPlacingOrder(lens, s[1..]) && multiset(s) == multiset{s[0]} + multiset(s[1..])
  {
    assert s == [s[0]] + s[1..];
    forall a: nat, b: nat | a < b < |s[1..]| ensures PlacedFirst(lens, s[1..], a, b) {
      assert PlacedFirst(lens, s, a + 1, b + 1);
    }
  }

  lemma {:induction false} HeadsAgree(lens: seq<nat>, s: seq<nat>, t: seq<nat>)
    requires s != [] && t != [] && InPlacingOrder(lens, s) && InPlacingOrder(lens, t) && multiset(s) == multiset(t)
    ensures s[0] == t[0]
  {
    assert s[0] in multiset(t) && t[0] in multiset(s);
    var b :| 0 <= b < |t| && t[b] == s[0];
    var c :| 0 <= c < |s| && s[c] == t[0];
    assert b > 0 ==> PlacedFirst(lens, t, 0, b);
    assert c > 0 ==> PlacedFirst(lens, s, 0, c);
  }

  /** There is only one placing order. */
  lemma {:induction false} OrderIsOne(lens: seq<nat>, s: seq<nat>, t: seq<nat>)
    requires InPlacingOrder(lens, s) && InPlacingOrder(lens, t) && multiset(s) == multiset(t)
    ensures s == t
  {
    assert |s| == |multiset(s)| == |multiset(t)| == |t|;
    if s != [] {
      HeadsAgree(lens, s, t);
      OrderTail(lens, s);
      OrderTail(lens, t);
      assert multiset(s[1..]) == multiset(s) - multiset{s[0]};
      assert multiset(t[1..]) == multiset(t) - multiset{t[0]};
      OrderIsOne(lens, s[1..], t[1..]);
      assert s == [s[0]] + s[1..] && t == [t[0]] + t[1..];
    }
  }

  // ---------------------------------------------------------------- feasible packings

  /** The summed length of the items that a packing puts into bin b. */
  function BinLoad(lens: seq<nat>, assign: seq<nat>, b: nat): nat
    requires |assign| == |lens|
  {
    if lens == [] then 0
    else BinLoad(lens[1..], assign[1..], b) + if assign[0] == b then lens[0] else 0
  }

  /** `assign` puts every item into one of p bins, none of which exceeds the cap. */
  ghost predicate Packs(lens: seq<nat>, cap: nat, assign: seq<nat>, p: nat) {
    && |assign| == |lens|
    && (forall i :: 0 <= i < |lens| ==> assign[i] < p)
    && (forall b: nat :: b < p ==> BinLoad(lens, assign, b) <= cap)
  }

  lemma {:induction false} InBin(lens: seq<nat>, assign: seq<nat>, i: nat)
    requires |assign| == |lens| && i < |lens|
    ensures BinLoad(lens, assign, assign[i]) >= lens[i]
  {
    if i > 0 {
      InBin(lens[1..], assign[1..], i - 1);
    }
  }

  lemma {:induction false} TwoInBin(lens: seq<nat>, assign: seq<nat>, i: nat, j: nat)
    requires |assign| == |lens| && i < j < |lens| && assign[i] == assign[j]
    ensures BinLoad(lens, assign, assign[i]) >= lens[i] + lens[j]
  {
    if i > 0 {
      TwoInBin(lens[1..], assign[1..], i - 1, j - 1);
    } else {
      InBin(lens[1..], assign[1..], j - 1);
    }
  }

  function BinsTotal(lens: seq<nat>, assign: seq<nat>, p: nat): nat
    requires |assign| == |lens|
  {
    if p == 0 then 0 else BinsTotal(lens, assign, p - 1) + BinLoad(lens, assign, p - 1)
  }

  lemma {:induction false} BinsTotalStep(lens: seq<nat>, assign: seq<nat>, p: nat)
    requires |assign| == |lens| && lens != []
    ensures BinsTotal(lens, assign, p)
      == BinsTotal(lens[1..], assign[1..], p) + if assign[0] < p then lens[0] else 0
  {
    if p > 0 {
      BinsTotalStep(lens, assign, p - 1);
    }
  }

  lemma {:induction false} BinsHoldAll(lens: seq<nat>, assign: seq<nat>, p: nat)
    requires |assign| == |lens| && forall i :: 0 <= i < |lens| ==> assign[i] < p
    ensures BinsTotal(lens, assign, p) == Sum(lens)
  {
    if lens == [] {
      EmptyBins(assign, p);
    } else {
      BinsTotalStep(lens, assign, p);
      BinsHoldAll(lens[1..], assign[1..], p);
    }
  }

  lemma {:induction false} EmptyBins(assign: seq<nat>, p: nat)
    requires assign == []
    ensures BinsTotal([], assign, p) == 0
  {
    if p > 0 {
      EmptyBins(assign, p - 1);
    }
  }

  lemma {:induction false} BinsBelowCap(lens: seq<nat>, assign: seq<nat>, p: nat, cap: nat)
    requires |assign| == |lens| && forall b: nat :: b < p ==> BinLoad(lens, assign, b) <= cap
    ensures BinsTotal(lens, assign, p) <= p * cap
  {
    if p > 0 {
      BinsBelowCap(lens, assign, p - 1, cap);
      SuccTimes(p - 1, cap);
    }
  }

  lemma {:induction false} PackingVolume(lens: seq<nat>, cap: nat, assign: seq<nat>, p: nat)
    requires Packs(lens, cap, assign, p)
    ensures Sum(lens) <= p * cap
  {
    BinsHoldAll(lens, assign, p);
    BinsBelowCap(lens, assign, p, cap);
  }

  // ---------------------------------------------------------------- the approximation ratio

  lemma {:induction false} PartitionDistinct(parts: seq<seq<nat>>, n: nat, g: nat, h: nat)
    requires IsPartition(parts, n) && g < h < |parts| && parts[g] != [] && parts[h] != []
    ensures parts[g][0] < n && parts[h][0] < n && parts[g][0] != parts[h][0]
  {
    FlattenMember<nat>(parts, g, parts[g][0]);
    FlattenMember<nat>(parts, h, parts[h][0]);
    assert parts[g][0] in multiset(Range(n)) && parts[h][0] in multiset(Range(n));
    assert parts[g][0] in parts[g] && parts[h][0] in parts[h];
    if parts[g][0] == parts[h][0] {
      FlattenTwice(parts, g, h, parts[g][0]);
      RangeCount(n, parts[g][0]);
    }
  }

  lemma {:induction false} FlattenTwice(parts: seq<seq<nat>>, g: nat, h: nat, x: nat)
    requires g < h < |parts| && x in parts[g] && x in parts[h]
    ensures multiset(Flatten<nat>(parts))[x] >= 2
  {
    var rest: seq<nat> := Flatten<nat>(parts[1..]);
    assert multiset(parts[0] + rest)[x] == multiset(parts[0])[x] + multiset(rest)[x];
    if g > 0 {
      FlattenTwice(parts[1..], g - 1, h - 1, x);
    } else {
      FlattenMember<nat>(parts[1..], h - 1, x);
      assert x in multiset(rest) && x in multiset(parts[0]);
    }
  }

  /** Case A: when the first j groups open with more than half the cap, any packing needs j bins. */
  lemma {:induction false} BigItemsNeedBins(lens: seq<nat>, cap: nat, parts: seq<seq<nat>>, assign: seq<nat>, p: nat,
        j: nat)
    requires Tight(lens, cap, parts) && IsPartition(parts, |lens|) && Packs(lens, cap, assign, p)
    requires j <= |parts| && forall g :: 0 <= g < j ==> 2 * First(lens, parts[g]) > cap
    ensures j <= p
  {
    forall g | 0 <= g < |parts| ensures parts[g][0] < |lens| {
      FlattenMember<nat>(parts, g, parts[g][0]);
      assert parts[g][0] in multiset(Range(|lens|));
    }
    var bins := seq(j, g requires 0 <= g < j => assign[parts[g][0]]);
    forall g, h | 0 <= g < h < j ensures bins[g] != bins[h] {
      PartitionDistinct(parts, |lens|, g, h);
      var x, y := parts[g][0], parts[h][0];
      if assign[x] == assign[y] {
        TwoInBin(lens, assign, Min(x, y), Max(x, y));
      }
    }
    DistinctBound(bins, BelowSet(p));
  }

  /** The group with the smallest load among the first n. */
  function Emptiest(loads: seq<int>, n: nat): (r: nat)
    requires 0 < n <= |loads|
    ensures r < n && forall h :: 0 <= h < n ==> loads[r] <= loads[h]
  {
    if n == 1 then 0
    else
      var r := Emptiest(loads, n - 1);
      if loads[n - 1] < loads[r] then n - 1 else r
  }

  lemma {:induction false} SumTwoLevels(loads: seq<int>, n: nat, low: int, high: int)
    requires n < |loads|
    requires forall h :: 0 <= h < n ==> loads[h] >= low
    requires forall h :: n <= h < |loads| - 1 ==> loads[h] >= 2 * high
    requires loads[|loads| - 1] >= high
    ensures Sum(loads) >= n * low + (2 * (|loads| - 1 - n) + 1) * high
  {
    if n > 0 {
      SumTwoLevels(loads[1..], n - 1, low, high);
      SuccTimes(n - 1, low);
    } else if |loads| > 1 {
      SumTwoLevels(loads[1..], 0, low, high);
      var m := |loads| - 2;
      assert (2 * (m + 1) + 1) * high == (2 * m + 1) * high + 2 * high;
    } else {
      assert loads[1..] == [];
    }
  }

  /** When a late group opens with at most half the cap, all groups from there to the last but one hold two items. */
  lemma {:induction false} TwoItems(lens: seq<nat>, cap: nat, parts: seq<seq<nat>>, from: nat, g: nat)
    requires Tight(lens, cap, parts) && from <= g < |parts| - 1 && 2 * First(lens, parts[from]) <= cap
    ensures |parts[g]| > 1
  {
    FirstBelowLoad(lens, parts[g]);
    assert Closed(lens, cap, parts[g], parts[g + 1]);
    assert from < g ==> Closed(lens, cap, parts[from], parts[g]);
  }

  lemma {:induction false} LateLoads(lens: seq<nat>, cap: nat, parts: seq<seq<nat>>, n: nat, e: nat)
    requires Tight(lens, cap, parts) && e < n < |parts| && 2 * First(lens, parts[n]) <= cap
    ensures forall g :: n <= g < |parts| - 1 ==> Load(lens, parts[g]) >= 2 * (cap + 1 - Load(lens, parts[e]))
    ensures Load(lens, parts[|parts| - 1]) >= cap + 1 - Load(lens, parts[e])
  {
    forall g | n <= g < |parts| - 1 ensures Load(lens, parts[g]) >= 2 * (cap + 1 - Load(lens, parts[e])) {
      TwoItems(lens, cap, parts, n, g);
      FirstBelowLoad(lens, parts[g]);
      assert Closed(lens, cap, parts[e], parts[g]);
    }
    FirstBelowLoad(lens, parts[|parts| - 1]);
    assert Closed(lens, cap, parts[e], parts[|parts| - 1]);
  }

  lemma {:induction false} OverflowArithmetic(n: int, rest: int, low: int, cap: int)
    requires 0 < n <= rest && low <= cap
    ensures n * low + rest * (cap + 1 - low) > n * cap
  {
    MulMono(n, rest, cap + 1 - low);
    assert n * low + n * (cap + 1 - low) == n * (cap + 1) == n * cap + n;
  }

  /** Case B: the items that did not fit into the first n groups, with those groups, exceed n caps. */
  lemma {:induction false} LateItemsOverflow(lens: seq<nat>, cap: nat, parts: seq<seq<nat>>, n: nat)
    requires Tight(lens, cap, parts) && 0 < n < |parts| && n <= 2 * (|parts| - 1 - n) + 1
    requires 2 * First(lens, parts[n]) <= cap
    ensures Sum(Loads(lens, parts)) > n * cap
  {
    var loads := Loads(lens, parts);
    var e := Emptiest(loads, n);
    LateLoads(lens, cap, parts, n, e);
    SumTwoLevels(loads, n, loads[e], cap + 1 - loads[e]);
    OverflowArithmetic(n, 2 * (|parts| - 1 - n) + 1, loads[e], cap);
  }

  /** Best Fit Decreasing never opens more than 3/2 of the bins that any feasible packing uses. */
  lemma {:induction false} WithinThreeHalves(lens: seq<nat>, cap: nat, assign: seq<nat>, p: nat)
    requires forall i :: 0 <= i < |lens| ==> lens[i] <= cap
    requires Packs(lens, cap, assign, p)
    ensures 2 * |Groups(lens, cap)| <= 3 * p
  {
    var parts := Groups(lens, cap);
    var m := |parts|;
    GroupsValid(lens, cap);
    var j := (2 * m + 2) / 3;
    if m > 0 {
      if 2 * First(lens, parts[j - 1]) > cap {
        assert forall g :: 0 <= g < j - 1 ==> Closed(lens, cap, parts[g], parts[j - 1]);
        BigItemsNeedBins(lens, cap, parts, assign, p, j);
      } else if m == 1 {
        SomeBin(lens, cap, parts, assign, p);
      } else {
        LateItemsOverflow(lens, cap, parts, j - 1);
        PartitionLoads(lens, parts);
        PackingVolume(lens, cap, assign, p);
        if p <= j - 1 {
          MulMono(p, j - 1, cap);
        }
      }
    }
  }

  lemma {:induction false} SomeBin(lens: seq<nat>, cap: nat, parts: seq<seq<nat>>, assign: seq<nat>, p: nat)
    requires IsPartition(parts, |lens|) && Packs(lens, cap, assign, p)
    requires parts != [] && parts[0] != []
    ensures p > 0
  {
    FlattenMember<nat>(parts, 0, parts[0][0]);
    assert parts[0][0] in multiset(Range(|lens|));
    assert assign[parts[0][0]] < p;
  }

  // ---------------------------------------------------------------- the program

  /** The inner loop: the group whose remaining capacity is smallest after taking an item. */
  method FindBest(lens: seq<nat>, cap: nat, parts: seq<seq<nat>>, remaining: seq<int>, len: nat) returns (best: int)
    requires |remaining| == |parts|
    requires forall g :: 0 <= g < |parts| ==> remaining[g] == cap - Load(lens, parts[g])
    ensures best == Best(lens, cap, parts, len, |parts|)
  {
    best := -1;
    var minRemaining: Option<int> := None;
    for g := 0 to |parts|
      invariant best == Best(lens, cap, parts, len, g)
      invariant minRemaining == if best == -1 then None else Some(remaining[best] - len)
    {
      if remaining[g] >= len {
        var after := remaining[g] - len;
        if minRemaining.None? || after < minRemaining.value {
          minRemaining := Some(after);
          best := g;
        }
      }
    }
  }

  /** `get_seqlen_BFD_partitions`: fails exactly when a length exceeds the cap; its final checks never fire. */
  method BestFitDecreasing(lens: seq<nat>, cap: nat) returns (r: Result<seq<seq<nat>>>)
    ensures r == if exists i :: 0 <= i < |lens| && lens[i] > cap then Err(ValueError) else Ok(Groups(lens, cap))
  {
    for i := 0 to |lens|
      invariant forall j :: 0 <= j < i ==> lens[j] <= cap
    {
      if lens[i] > cap {
        return Err(ValueError);
      }
    }
    var parts := PlaceAll(lens, cap, OrderDown(lens, |lens|));
    GroupsValid(lens, cap);
    r := CheckGroups(lens, cap, parts);
  }

  /** The outer loop: every index joins its best group or opens a new one. */
  method PlaceAll(lens: seq<nat>, cap: nat, order: seq<nat>) returns (parts: seq<seq<nat>>)
    ensures parts == Pack(lens, cap, order, |order|)
  {
    parts := [];
    var remaining: seq<int> := [];
    for n := 0 to |order|
      invariant parts == Pack(lens, cap, order, n)
      invariant |remaining| == |parts|
      invariant forall g :: 0 <= g < |parts| ==> remaining[g] == cap - Load(lens, parts[g])
    {
      var i := order[n];
      parts, remaining := PlaceOne(lens, cap, parts, remaining, i);
    }
  }

  /** One index joins its best group or opens a new one. */
  method PlaceOne(lens: seq<nat>, cap: nat, groups: seq<seq<nat>>, capacity: seq<int>, i: nat)
    returns (parts: seq<seq<nat>>, remaining: seq<int>)
    requires |capacity| == |groups| && forall g :: 0 <= g < |groups| ==> capacity[g] == cap - Load(lens, groups[g])
    ensures parts == Put(lens, cap, groups, i)
    ensures |remaining| == |parts| && forall g :: 0 <= g < |parts| ==> remaining[g] == cap - Load(lens, parts[g])
  {
    var best := FindBest(lens, cap, groups, capacity, LengthAt(lens, i));
    if best != -1 {
      LoadPush(lens, groups[best], i);
      parts := groups[best := groups[best] + [i]];
      remaining := capacity[best := capacity[best] - LengthAt(lens, i)];
    } else {
      LoadPush(lens, [], i);
      parts := groups + [[i]];
      remaining := capacity + [cap - LengthAt(lens, i)];
    }
  }

  /** The closing checks: no group above the cap, no index twice, every index assigned. */
  method CheckGroups(lens: seq<nat>, cap: nat, parts: seq<seq<nat>>) returns (r: Result<seq<seq<nat>>>)
    requires IsPartition(parts, |lens|)
    requires forall g :: 0 <= g < |parts| ==> Load(lens, parts[g]) <= cap
    ensures r == Ok(parts)
  {
    for g := 0 to |parts| {
      if Load(lens, parts[g]) > cap {
        return Err(AssertionError);
      }
    }
    var flat := Flatten<nat>(parts);
    var taken: set<nat> := {};
    for j := 0 to |flat|
      invariant taken == set x | x in flat[..j]
      invariant |taken| == j
    {
      FlatDistinct(flat, |lens|, j);
      if flat[j] in taken {
        return Err(AssertionError);
      }
      taken := taken + {flat[j]};
    }
    assert |flat| == |multiset(flat)| == |multiset(Range(|lens|))| == |lens|;
    if |taken| != |lens| {
      return Err(AssertionError);
    }
    r := Ok(parts);
  }

  lemma {:induction false} FlatDistinct(flat: seq<nat>, n: nat, j: nat)
    requires multiset(flat) == multiset(Range(n)) && j < |flat|
    ensures flat[j] !in flat[..j]
  {
    var x := flat[j];
    RangeCount(n, x);
    assert flat == flat[..j] + [x] + flat[j + 1..];
    assert multiset(flat)[x] == multiset(flat[..j])[x] + multiset([x])[x] + multiset(flat[j + 1..])[x];
  }
}
