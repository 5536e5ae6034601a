/** Sums, flattening, index ranges and permutations of sequences. */
module Sequences {

  function Min(a: int, b: int): int {
    if a <= b then a else b
  }

  function Max(a: int, b: int): int {
    if a >= b then a else b
  }

  function Sum(s: seq<int>): int {
    if s == [] then 0 else s[0] + Sum(s[1..])
  }

  lemma {:induction false} SumConcat(a: seq<int>, b: seq<int>)
    ensures Sum(a + b) == Sum(a) + Sum(b)
  {
    if a == [] {
      assert a + b == b;
    } else {
      assert (a + b)[1..] == a[1..] + b;
      SumConcat(a[1..], b);
    }
  }

  function Range(n: nat): (r: seq<nat>)
    ensures |r| == n
    ensures forall i :: 0 <= i < n ==> r[i] == i
  {
    seq(n, i => i)
  }

  function Flatten<T>(parts: seq<seq<T>>): seq<T> {
    if parts == [] then [] else parts[0] + Flatten(parts[1..])
  }

  lemma {:induction false} FlattenConcat<T>(a: seq<seq<T>>, b: seq<seq<T>>)
    ensures Flatten(a + b) == Flatten(a) + Flatten(b)
  {
    if a == [] {
      assert a + b == b;
    } else {
      assert (a + b)[1..] == a[1..] + b;
      FlattenConcat(a[1..], b);
    }
  }

  lemma {:induction false} FlattenPush<T>(a: seq<seq<T>>, last: seq<T>)
    ensures Flatten(a + [last]) == Flatten(a) + last
  {
    FlattenConcat(a, [last]);
    assert [last][1..] == [];
  }

  lemma {:induction false} FlattenMember<T>(parts: seq<seq<T>>, p: nat, x: T)
    requires p < |parts| && x in parts[p]
    ensures x in Flatten(parts)
  {
    if p > 0 {
      FlattenMember(parts[1..], p - 1, x);
    }
  }

  lemma {:induction false} FlattenFind<T>(parts: seq<seq<T>>, x: T) returns (p: nat)
    requires x in Flatten(parts)
    ensures p < |parts| && x in parts[p]
  {
    if x in parts[0] {
      p := 0;
    } else {
      p := FlattenFind(parts[1..], x);
      p := p + 1;
    }
  }

  /** The parts place every index below n exactly once. */
  ghost predicate IsPartition(parts: seq<seq<nat>>, n: nat) {
    multiset(Flatten<nat>(parts)) == multiset(Range(n))
  }

  function Gather<T>(data: seq<T>, idx: seq<nat>): (r: seq<T>)
    requires forall j :: 0 <= j < |idx| ==> idx[j] < |data|
    ensures |r| == |idx|
    ensures forall j :: 0 <= j < |idx| ==> r[j] == data[idx[j]]
  {
    seq(|idx|, j requires 0 <= j < |idx| => data[idx[j]])
  }

  function RemoveAt<T>(s: seq<T>, i: nat): seq<T>
    requires i < |s|
  {
    s[..i] + s[i + 1..]
  }

  lemma {:induction false} RemoveAtMultiset<T>(s: seq<T>, i: nat)
    requires i < |s|
    ensures multiset(s) == multiset(RemoveAt(s, i)) + multiset{s[i]}
  {
    assert s == s[..i] + [s[i]] + s[i + 1..];
  }

  lemma {:induction false} MultisetPush<T>(s: seq<T>, n: nat)
    requires n < |s|
    ensures multiset(s[..n + 1]) == multiset(s[..n]) + multiset{s[n]}
  {
    assert s[..n + 1] == s[..n] + [s[n]];
  }

  /** Where the head of `a` sits in a permutation `b`, and that removing both leaves permutations. */
  lemma {:induction false} HeadPosition<T>(a: seq<T>, b: seq<T>) returns (i: nat)
    requires a != [] && multiset(a) == multiset(b)
    ensures i < |b| && b[i] == a[0]
    ensures multiset(a[1..]) == multiset(RemoveAt(b, i))
  {
    assert a[0] in multiset(b);
    i :| 0 <= i < |b| && b[i] == a[0];
    RemoveAtMultiset(b, i);
    assert a == [a[0]] + a[1..];
    assert multiset(a[1..]) == multiset(a) - multiset{a[0]};
    assert multiset(RemoveAt(b, i)) == multiset(b) - multiset{b[i]};
  }

  function Map<T, U>(f: T -> U, s: seq<T>): (r: seq<U>)
    ensures |r| == |s|
    ensures forall i :: 0 <= i < |s| ==> r[i] == f(s[i])
  {
    seq(|s|, i requires 0 <= i < |s| => f(s[i]))
  }

  lemma {:induction false} PermutationMap<T, U>(f: T -> U, a: seq<T>, b: seq<T>)
    requires multiset(a) == multiset(b)
    ensures multiset(Map(f, a)) == multiset(Map(f, b))
  {
    if a == [] {
      assert |b| == |multiset(b)| == 0;
    } else {
      var i := HeadPosition(a, b);
      PermutationMap(f, a[1..], RemoveAt(b, i));
      var fa, fb := Map(f, a), Map(f, b);
      assert fa == [fa[0]] + Map(f, a[1..]);
      assert RemoveAt(fb, i) == Map(f, RemoveAt(b, i));
      RemoveAtMultiset(fb, i);
    }
  }

  /** A duplicate-free sequence has no more members than a set that contains them all. */
  lemma {:induction false} DistinctBound<T>(s: seq<T>, bound: set<T>)
    requires forall i, j :: 0 <= i < j < |s| ==> s[i] != s[j]
    requires forall x :: x in s ==> x in bound
    ensures |s| <= |bound|
  {
    if s != [] {
      DistinctBound(s[1..], bound - {s[0]});
    }
  }

  lemma {:induction false} RangeMultiset(n: nat)
    ensures forall i: nat :: multiset(Range(n))[i] == if i < n then 1 else 0
  {
    forall i: nat ensures multiset(Range(n))[i] == if i < n then 1 else 0 {
      RangeCount(n, i);
    }
  }

  lemma {:induction false} RangeCount(n: nat, i: nat)
    ensures multiset(Range(n))[i] == if i < n then 1 else 0
  {
    if n > 0 {
      RangeCount(n - 1, i);
      assert Range(n) == Range(n - 1) + [n - 1];
    }
  }

  function BelowSet(n: nat): (r: set<nat>)
    ensures |r| == n && forall i: nat :: i in r <==> i < n
  {
    if n == 0 then {} else BelowSet(n - 1) + {n - 1}
  }

  ghost predicate Every<T(!new)>(p: T -> bool, s: seq<T>) {
    forall i :: 0 <= i < |s| ==> p(s[i])
  }

  lemma {:induction false} RemoveEvery<T(!new)>(p: T -> bool, s: seq<T>, i: nat)
    requires Every(p, s) && i < |s|
    ensures Every(p, RemoveAt(s, i))
  {
    var r := RemoveAt(s, i);
    forall j | 0 <= j < |r| ensures p(r[j]) {
      assert r[j] == s[if j < i then j else j + 1];
    }
  }

  // ---------------------------------------------------------------- products and remainders

  lemma {:induction false} OneTimes(x: real)
    ensures 1.0 * x == x
  {
  }

  lemma {:induction false} MulMono(x: int, y: int, k: int)
    requires x <= y && 0 <= k
    ensures x * k <= y * k
  {
    var d := y - x;
    assert 0 <= d * k;
    assert y * k == x * k + d * k;
  }

  lemma {:induction false} SuccTimes(n: int, k: int)
    ensures (n + 1) * k == n * k + k
  {
  }

  /** Quotient and remainder are the only way to write n as q * k + r with r below k. */
  lemma {:induction false} DivModUnique(n: int, q: int, r: int, k: int)
    requires k > 0 && n == q * k + r && 0 <= r < k
    ensures n / k == q && n % k == r
  {
    var d, e := n / k, n % k;
    assert n == d * k + e;
    assert (q + 1) * k == q * k + k && (d + 1) * k == d * k + k;
    if q < d {
      MulMono(q + 1, d, k);
    } else if d < q {
      MulMono(d + 1, q, k);
    }
  }

  lemma {:induction false} BlockStep(n: nat, k: nat)
    requires k > 0 && n % k == 0 && n > 0
    ensures n >= k && (n - k) % k == 0
  {
    var q := n / k;
    assert n == q * k;
    if q >= 1 {
      MulMono(1, q, k);
    }
    assert n - k == (q - 1) * k;
    DivModUnique(n - k, q - 1, 0, k);
  }

  // ---------------------------------------------------------------- loads of index lists

  function LengthAt(lens: seq<nat>, i: nat): nat {
    if i < |lens| then lens[i] else 0
  }

  /** The summed length of the items a part holds. */
  function Load(lens: seq<nat>, part: seq<nat>): nat {
    if part == [] then 0 else LengthAt(lens, part[0]) + Load(lens, part[1..])
  }

  function Loads(lens: seq<nat>, parts: seq<seq<nat>>): (r: seq<int>)
    ensures |r| == |parts|
    ensures forall p :: 0 <= p < |parts| ==> r[p] == Load(lens, parts[p])
  {
    seq(|parts|, p requires 0 <= p < |parts| => Load(lens, parts[p]))
  }

  lemma {:induction false} LoadConcat(lens: seq<nat>, a: seq<nat>, b: seq<nat>)
    ensures Load(lens, a + b) == Load(lens, a) + Load(lens, b)
  {
    if a == [] {
      assert a + b == b;
    } else {
      assert (a + b)[1..] == a[1..] + b;
      LoadConcat(lens, a[1..], b);
    }
  }

  lemma {:induction false} LoadPush(lens: seq<nat>, a: seq<nat>, i: nat)
    ensures Load(lens, a + [i]) == Load(lens, a) + LengthAt(lens, i)
  {
    LoadConcat(lens, a, [i]);
    assert [i][1..] == [];
  }

  lemma {:induction false} LoadPermutation(lens: seq<nat>, a: seq<nat>, b: seq<nat>)
    requires multiset(a) == multiset(b)
    ensures Load(lens, a) == Load(lens, b)
  {
    if a == [] {
      assert |b| == |multiset(b)| == 0;
    } else {
      var i := HeadPosition(a, b);
      LoadPermutation(lens, a[1..], RemoveAt(b, i));
      LoadConcat(lens, b[..i], b[i + 1..]);
      LoadConcat(lens, b[..i], b[i..]);
      assert b[i..][1..] == b[i + 1..];
      assert b == b[..i] + b[i..];
    }
  }

  lemma {:induction false} LoadRange(lens: seq<nat>, n: nat)
    requires n <= |lens|
    ensures Load(lens, Range(n)) == Sum(lens[..n])
  {
    if n > 0 {
      LoadRange(lens, n - 1);
      assert Range(n) == Range(n - 1) + [n - 1];
      LoadPush(lens, Range(n - 1), n - 1);
      assert lens[..n] == lens[..n - 1] + [lens[n - 1]];
      SumConcat(lens[..n - 1], [lens[n - 1]]);
    }
  }

  lemma {:induction false} LoadFlatten(lens: seq<nat>, parts: seq<seq<nat>>)
    ensures Load(lens, Flatten<nat>(parts)) == Sum(Loads(lens, parts))
  {
    if parts != [] {
      LoadFlatten(lens, parts[1..]);
      LoadConcat(lens, parts[0], Flatten<nat>(parts[1..]));
      assert Loads(lens, parts)[1..] == Loads(lens, parts[1..]);
    }
  }

  /** The loads of a partition add up to the total length. */
  lemma {:induction false} PartitionLoads(lens: seq<nat>, parts: seq<seq<nat>>)
    requires IsPartition(parts, |lens|)
    ensures Sum(Loads(lens, parts)) == Sum(lens)
  {
    LoadFlatten(lens, parts);
    LoadPermutation(lens, Flatten<nat>(parts), Range(|lens|));
    LoadRange(lens, |lens|);
    assert lens[..|lens|] == lens;
  }

  function Longest(lens: seq<nat>): (r: nat)
    ensures forall i :: 0 <= i < |lens| ==> lens[i] <= r
    ensures lens != [] ==> r in lens
  {
    if lens == [] then 0
    else
      var rest := Longest(lens[1..]);
      if rest > lens[0] then rest else lens[0]
  }

  lemma {:induction false} SumAtLeast(s: seq<int>, low: int, top: nat)
    requires top < |s| && forall i :: 0 <= i < |s| ==> s[i] >= low
    ensures Sum(s) >= s[top] + (|s| - 1) * low
  {
    if top > 0 {
      SumAtLeast(s[1..], low, top - 1);
    } else if |s| > 1 {
      SumAtLeast(s[1..], low, 0);
    }
  }

  // ---------------------------------------------------------------- no element twice

  ghost predicate Differ(s: seq<int>, i: nat, j: nat)
    requires i < |s| && j < |s|
  {
    s[i] != s[j]
  }

  /** No element occurs twice. */
  ghost predicate Distinct(s: seq<int>) {
    forall i, j {:trigger Differ(s, i, j)} :: 0 <= i < j < |s| ==> Differ(s, i, j)
  }

  lemma {:induction false} DistinctTail(s: seq<int>)
    requires s != [] && Distinct(s)
    ensures Distinct(s[1..]) && s[0] !in s[1..]
  {
    forall i: nat, j: nat | i < j < |s[1..]| ensures Differ(s[1..], i, j) {
      assert Differ(s, i + 1, j + 1);
    }
    forall j: nat | j < |s[1..]| ensures s[1..][j] != s[0] {
      assert Differ(s, 0, j + 1);
    }
  }

  lemma {:induction false} DistinctPush(s: seq<int>, x: int)
    requires Distinct(s) && x !in s
    ensures Distinct(s + [x])
  {
    forall i: nat, j: nat | i < j < |s + [x]| ensures Differ(s + [x], i, j) {
      assert j < |s| ==> Differ(s, i, j);
    }
  }

  lemma {:induction false} DistinctCons(x: int, s: seq<int>)
    requires Distinct(s)
    ensures x !in s ==> Distinct([x] + s)
  {
    forall i: nat, j: nat | x !in s && i < j < |[x] + s| ensures Differ([x] + s, i, j) {
      assert i > 0 ==> Differ(s, i - 1, j - 1);
    }
  }

  lemma {:induction false} DistinctFront(s: seq<int>)
    requires Distinct(s) && s != []
    ensures Distinct(s[..|s| - 1]) && s[|s| - 1] !in s[..|s| - 1]
  {
    var front := s[..|s| - 1];
    forall a: nat, b: nat | a < b < |front| ensures Differ(front, a, b) {
      assert Differ(s, a, b);
    }
    forall a: nat | a < |front| ensures front[a] != s[|s| - 1] {
      assert Differ(s, a, |s| - 1);
    }
  }

  ghost function Occurrences(s: seq<nat>, x: nat): nat {
    multiset(s)[x]
  }

  /** The same by counting, for sequences that are cut and joined. */
  ghost predicate Once(s: seq<nat>) {
    forall x: nat :: Occurrences(s, x) <= 1
  }

  lemma {:induction false} NotIn(s: seq<nat>, x: nat)
    ensures x !in s <==> Occurrences(s, x) == 0
  {
  }

  lemma {:induction false} Twice(s: seq<nat>, a: nat, b: nat)
    requires a < b < |s|
    ensures s[a] == s[b] ==> Occurrences(s, s[a]) >= 2
  {
    assert s == s[..a] + [s[a]] + s[a + 1..b] + [s[b]] + s[b + 1..];
  }

  lemma {:induction false} OnceSame(a: seq<nat>, b: seq<nat>)
    requires multiset(a) == multiset(b) && Once(a)
    ensures Once(b)
  {
    forall x: nat ensures Occurrences(b, x) <= 1 {
      assert Occurrences(a, x) <= 1;
    }
  }

  lemma {:induction false} OnceAdd(s: seq<nat>, t: seq<nat>, x: nat)
    requires Once(s) && x !in s && multiset(t) == multiset(s) + multiset{x}
    ensures Once(t)
  {
    NotIn(s, x);
    forall y: nat ensures Occurrences(t, y) <= 1 {
      assert Occurrences(s, y) <= 1;
    }
  }

  lemma {:induction false} RangeDistinct(n: nat)
    ensures Distinct(Range(n)) && forall i: nat :: i in Range(n) <==> i < n
  {
    forall a: nat, b: nat | a < b < n ensures Differ(Range(n), a, b) {
    }
    forall i: nat ensures i in Range(n) <==> i < n {
      assert i < n ==> Range(n)[i] == i;
    }
  }

  lemma {:induction false} DistinctOnce(s: seq<nat>)
    requires Distinct(s)
    ensures Once(s)
  {
    if s != [] {
      var front, last := s[..|s| - 1], s[|s| - 1];
      DistinctFront(s);
      DistinctOnce(front);
      assert s == front + [last];
      OnceAdd(front, s, last);
    }
  }

  lemma {:induction false} OnceApart(s: seq<nat>, a: nat, b: nat)
    requires Once(s) && a < b < |s|
    ensures s[a] != s[b]
  {
    Twice(s, a, b);
  }

  lemma {:induction false} RemoveOnce(s: seq<nat>, p: nat)
    requires Once(s) && p < |s|
    ensures Once(RemoveAt(s, p)) && forall x: nat :: x in RemoveAt(s, p) <==> x in s && x != s[p]
  {
    var rest := RemoveAt(s, p);
    RemoveAtMultiset(s, p);
    forall x: nat ensures Occurrences(rest, x) <= 1 && (x in rest <==> x in s && x != s[p]) {
      assert Occurrences(s, x) <= 1 && Occurrences(s, x) == Occurrences(rest, x) + if x == s[p] then 1 else 0;
      assert x in s <==> Occurrences(s, x) > 0;
      assert x in rest <==> Occurrences(rest, x) > 0;
    }
  }

  lemma {:induction false} InsertedOrOld(sorted: seq<nat>, x: nat, r: seq<nat>, a: nat)
    requires multiset(r) == multiset(sorted) + multiset{x} && a < |r|
    ensures r[a] == x || r[a] in sorted
  {
    assert r[a] in multiset(r);
  }

  /** The last n elements, or all if there are fewer. */
  function LastOf<T>(s: seq<T>, n: nat): (r: seq<T>)
    ensures |r| == Min(n, |s|)
  {
    if n < |s| then s[|s| - n..] else s
  }

  lemma {:induction false} LastOfLast<T>(s: seq<T>, m: nat, n: nat)
    ensures LastOf(LastOf(s, m), n) == LastOf(s, Min(n, m))
  {
  }
}
