/**
 How many samples of each kind down-sampling keeps of a large group, and which ones. Both kinds keep
 their rounded share, unless the minimum for one of them binds; if the quotas do not add up to n the
 choice falls back to the n cheapest samples overall.
*/
module SampleShares {
  import opened Sequences
  import opened DownSampling

  // ---------------------------------------------------------------- rounding

  function Distance(a: int, b: int): nat {
    if a < b then b - a else a - b
  }

  /** k is the quotient of a and b to the nearest integer, and the even one of two nearest. */
  predicate Nearest(k: int, a: nat, b: nat) {
    2 * Distance(k * b, a) <= b && (2 * Distance(k * b, a) == b ==> k % 2 == 0)
  }

  lemma {:induction false} RoundIsNearest(a: nat, b: nat)
    requires b > 0
    ensures Nearest(Round(a, b), a, b)
  {
    var q, r := a / b, a % b;
    assert a == q * b + r;
    SuccTimes(q, b);
  }

  lemma {:induction false} NearestUnique(k: int, m: int, a: nat, b: nat)
    requires b > 0 && Nearest(k, a, b) && Nearest(m, a, b)
    ensures k == m
  {
    if k < m {
      NotBothNearest(k, m, a, b);
    } else if m < k {
      NotBothNearest(m, k, a, b);
    }
  }

  lemma {:induction false} NotBothNearest(k: int, m: int, a: nat, b: nat)
    requires b > 0 && k < m && Nearest(k, a, b)
    ensures !Nearest(m, a, b)
  {
    SuccTimes(k, b);
    MulMono(k + 1, m, b);
    if m == k + 1 {
      assert m * b == k * b + b;
    } else {
      MulMono(k + 2, m, b);
      SuccTimes(k + 1, b);
    }
  }

  /** A share of fewer than all samples is no larger than their number. */
  lemma {:induction false} ShareBounds(k: int, count: nat, n: nat, all: nat)
    requires Nearest(k, count * n, all) && n < all && count <= all
    ensures 0 <= k <= count
  {
    MulMono(n, all, count);
    assert count * n <= count * all;
    if k < 0 {
      MulMono(k, -1, all);
    }
    if k > count {
      MulMono(count + 1, k, all);
      SuccTimes(count, all);
    }
  }

  // ---------------------------------------------------------------- the stable sort

  /** Cheaper, or as cheap and related by r. */
  ghost predicate Earlier(penalties: seq<real>, r: (nat, nat) -> bool, x: nat, y: nat) {
    PenaltyAt(penalties, x) < PenaltyAt(penalties, y) || (PenaltyAt(penalties, x) == PenaltyAt(penalties, y) && r(x, y))
  }

  /** Samples that are equally cheap are related by r. */
  ghost predicate Tied(penalties: seq<real>, r: (nat, nat) -> bool, x: nat, y: nat) {
    PenaltyAt(penalties, x) == PenaltyAt(penalties, y) ==> r(x, y)
  }

  ghost predicate TiedAt(penalties: seq<real>, r: (nat, nat) -> bool, s: seq<nat>, a: nat, b: nat)
    requires a < |s| && b < |s|
  {
    Tied(penalties, r, s[a], s[b])
  }

  ghost predicate TiesInOrder(penalties: seq<real>, r: (nat, nat) -> bool, s: seq<nat>) {
    forall a, b {:trigger TiedAt(penalties, r, s, a, b)} :: 0 <= a < b < |s| ==> TiedAt(penalties, r, s, a, b)
  }

  ghost predicate EarlierAt(penalties: seq<real>, r: (nat, nat) -> bool, s: seq<nat>, a: nat, b: nat)
    requires a < |s| && b < |s|
  {
    Earlier(penalties, r, s[a], s[b])
  }

  ghost predicate InOrder(penalties: seq<real>, r: (nat, nat) -> bool, s: seq<nat>) {
    forall a, b {:trigger EarlierAt(penalties, r, s, a, b)} :: 0 <= a < b < |s| ==> EarlierAt(penalties, r, s, a, b)
  }

  lemma {:induction false} InOrderFront(penalties: seq<real>, r: (nat, nat) -> bool, s: seq<nat>, n: nat)
    requires InOrder(penalties, r, s) && n <= |s|
    ensures InOrder(penalties, r, s[..n])
  {
    forall a, b | 0 <= a < b < n ensures EarlierAt(penalties, r, s[..n], a, b) {
      assert EarlierAt(penalties, r, s, a, b);
    }
  }

  lemma {:induction false} InOrderPush(penalties: seq<real>, r: (nat, nat) -> bool, s: seq<nat>, x: nat)
    requires InOrder(penalties, r, s) && forall a :: 0 <= a < |s| ==> Earlier(penalties, r, s[a], x)
    ensures InOrder(penalties, r, s + [x])
  {
    forall a, b | 0 <= a < b < |s + [x]| ensures EarlierAt(penalties, r, s + [x], a, b) {
      assert b < |s| ==> EarlierAt(penalties, r, s, a, b);
    }
  }

  lemma {:induction false} BeforeEnd(penalties: seq<real>, r: (nat, nat) -> bool, s: seq<nat>, a: nat)
    requires InOrder(penalties, r, s) && a < |s| - 1
    ensures Earlier(penalties, r, s[a], s[|s| - 1])
  {
    assert EarlierAt(penalties, r, s, a, |s| - 1);
  }

  lemma {:induction false} InsertStable(penalties: seq<real>, r: (nat, nat) -> bool, sorted: seq<nat>, x: nat)
    requires InOrder(penalties, r, sorted)
    requires forall a :: 0 <= a < |sorted| ==> Tied(penalties, r, sorted[a], x)
    ensures InOrder(penalties, r, InsertByPenalty(penalties, sorted, x))
  {
    if sorted != [] {
      var n := |sorted| - 1;
      var front, last := sorted[..n], sorted[n];
      if PenaltyAt(penalties, last) <= PenaltyAt(penalties, x) {
        forall a | 0 <= a < |sorted| ensures Earlier(penalties, r, sorted[a], x) {
          if a < n {
            BeforeEnd(penalties, r, sorted, a);
          }
        }
        InOrderPush(penalties, r, sorted, x);
      } else {
        InOrderFront(penalties, r, sorted, n);
        InsertStable(penalties, r, front, x);
        InsertKeeps(penalties, front, x);
        var inserted := InsertByPenalty(penalties, front, x);
        forall a | 0 <= a < |inserted| ensures Earlier(penalties, r, inserted[a], last) {
          InsertedOrOld(front, x, inserted, a);
          if inserted[a] != x {
            var c :| 0 <= c < n && front[c] == inserted[a];
            BeforeEnd(penalties, r, sorted, c);
          }
        }
        InOrderPush(penalties, r, inserted, last);
      }
    }
  }

  /** Sorting by penalty keeps the order of equally cheap samples. */
  lemma {:induction false} SortStable(penalties: seq<real>, r: (nat, nat) -> bool, s: seq<nat>)
    requires TiesInOrder(penalties, r, s)
    ensures InOrder(penalties, r, SortByPenalty(penalties, s))
  {
    if s != [] {
      var n := |s| - 1;
      forall a, b | 0 <= a < b < n ensures TiedAt(penalties, r, s[..n], a, b) {
        assert TiedAt(penalties, r, s, a, b);
      }
      SortStable(penalties, r, s[..n]);
      SortKeeps(penalties, s[..n]);
      var sorted := SortByPenalty(penalties, s[..n]);
      forall a | 0 <= a < |sorted| ensures Tied(penalties, r, sorted[a], s[n]) {
        assert sorted[a] in multiset(sorted);
        var c :| 0 <= c < n && s[c] == sorted[a];
        assert TiedAt(penalties, r, s, c, n);
      }
      InsertStable(penalties, r, sorted, s[n]);
    }
  }

  /** What a prefix of an ordered list leaves out comes later. */
  lemma {:induction false} PrefixEarlier(penalties: seq<real>, r: (nat, nat) -> bool, s: seq<nat>, taken: seq<nat>,
        x: nat, y: nat)
    requires InOrder(penalties, r, s) && taken <= s && x in taken && y in s && y !in taken
    ensures Earlier(penalties, r, x, y)
  {
    var a :| 0 <= a < |taken| && taken[a] == x;
    var rest := s[|taken|..];
    assert s == taken + rest && y in rest;
    var b :| 0 <= b < |rest| && rest[b] == y;
    assert EarlierAt(penalties, r, s, a, |taken| + b);
  }

  // ---------------------------------------------------------------- the two kinds

  ghost predicate Rising(s: seq<nat>) {
    forall a, b :: 0 <= a < b < |s| ==> s[a] < s[b]
  }

  predicate Listed(rewards: seq<real>, s: seq<nat>) {
    forall a :: 0 <= a < |s| ==> s[a] < |rewards|
  }

  /** How many of the listed samples have a positive reward. */
  function Positives(rewards: seq<real>, s: seq<nat>): (r: nat)
    requires Listed(rewards, s)
    ensures r <= |s|
  {
    if s == [] then 0 else Positives(rewards, s[1..]) + if rewards[s[0]] > 0.0 then 1 else 0
  }

  lemma {:induction false} PositivesConcat(rewards: seq<real>, a: seq<nat>, b: seq<nat>)
    requires Listed(rewards, a) && Listed(rewards, b)
    ensures Positives(rewards, a + b) == Positives(rewards, a) + Positives(rewards, b)
  {
    if a == [] {
      assert a + b == b;
    } else {
      assert (a + b)[1..] == a[1..] + b && (a + b)[0] == a[0];
      PositivesConcat(rewards, a[1..], b);
    }
  }

  ghost predicate AllOfKind(rewards: seq<real>, s: seq<nat>, positive: bool) {
    forall a :: 0 <= a < |s| ==> s[a] < |rewards| && (rewards[s[a]] > 0.0) == positive
  }

  lemma {:induction false} PositivesOfKind(rewards: seq<real>, s: seq<nat>, positive: bool)
    requires AllOfKind(rewards, s, positive)
    ensures Positives(rewards, s) == if positive then |s| else 0
  {
    if s != [] {
      PositivesOfKind(rewards, s[1..], positive);
    }
  }

  lemma {:induction false} RisingPush(s: seq<nat>, x: nat)
    requires Rising(s) && forall y :: y in s ==> y < x
    ensures Rising(s + [x])
  {
    forall a, b | 0 <= a < b < |s + [x]| ensures (s + [x])[a] < (s + [x])[b] {
      assert s[a] in s;
    }
  }

  lemma {:induction false} OnePositive(rewards: seq<real>, s: seq<nat>, x: nat)
    requires Listed(rewards, s) && x < |rewards|
    ensures Positives(rewards, s + [x]) == Positives(rewards, s) + if rewards[x] > 0.0 then 1 else 0
  {
    PositivesConcat(rewards, s, [x]);
    assert [x][1..] == [];
  }

  lemma {:induction false} KindsSplit(rewards: seq<real>, idxes: seq<nat>, positive: bool)
    requires Listed(rewards, idxes) && Rising(idxes)
    ensures var s := WithReward(rewards, idxes, positive);
      && AllOfKind(rewards, s, positive) && Rising(s)
      && |s| == if positive then Positives(rewards, idxes) else |idxes| - Positives(rewards, idxes)
  {
    if idxes != [] {
      var front, last := idxes[..|idxes| - 1], idxes[|idxes| - 1];
      KindsSplit(rewards, front, positive);
      OnePositive(rewards, front, last);
      assert idxes == front + [last];
      var s := WithReward(rewards, front, positive);
      forall y | y in s ensures y < last {
        WithRewardIff(rewards, front, positive, y);
      }
      RisingPush(s, last);
    }
  }

  // ---------------------------------------------------------------- the quotas

  /** Neither minimum binds, and the rounded shares add up to n. */
  predicate FairShares(n: int, positive: int, zero: int, minPositive: int, minZero: int) {
    zero > minZero && positive > minPositive && positive + zero == n
  }

  /** Only the minimum for the other samples binds, and positive ones can fill up to n. */
  predicate ZeroBinds(n: int, positives: nat, zero: int, minPositive: int, minZero: int) {
    zero <= minZero && n - minZero > minPositive && 0 <= n - minZero <= positives
  }

  /** The minimum for positive samples binds, and wins; other ones can fill up to n. */
  predicate PositiveBinds(n: int, zeros: nat, positive: int, zero: int, minPositive: int, minZero: int) {
    && (if zero <= minZero then n - minZero else positive) <= minPositive
    && 0 <= minPositive && 0 <= n - minPositive <= zeros
  }

  /** How many samples the slice `s[:q]` of a list of the given length has. */
  function TakenOf(count: nat, q: int): nat {
    if q >= 0 then Min(q, count) else Max(0, count + q)
  }

  lemma {:induction false} TakenLength(s: seq<nat>, q: int)
    ensures |Take(s, q)| == TakenOf(|s|, q)
  {
  }

  /** The quotas lead to n samples exactly in the three cases, with these counts of positive samples. */
  ghost predicate CountsRight(c: Config, positives: nat, zeros: nat, positive: int, zero: int, some: nat, others: nat) {
    var mp, mz := Min(c.minNonZero, positives), Min(c.minZero, zeros);
    var fair, zeroBinds := FairShares(c.n, positive, zero, mp, mz), ZeroBinds(c.n, positives, zero, mp, mz);
    var positiveBinds := PositiveBinds(c.n, zeros, positive, zero, mp, mz);
    && (some + others == c.n <==> fair || zeroBinds || positiveBinds)
    && (fair ==> some == positive)
    && (zeroBinds ==> some == c.n - mz)
    && (positiveBinds ==> some == mp)
  }

  lemma {:induction false} QuotaCounts(c: Config, positives: nat, zeros: nat, positive: int, zero: int)
    requires 0 < c.n < positives + zeros && 0 <= positive <= positives && 0 <= zero <= zeros
    requires Round(positives * c.n, positives + zeros) == positive && Round(zeros * c.n, positives + zeros) == zero
    ensures var q := QuotasOf(c, positives, zeros, positives + zeros);
      CountsRight(c, positives, zeros, positive, zero, TakenOf(positives, q.nonZero), TakenOf(zeros, q.zero))
  {
  }

  // ---------------------------------------------------------------- what is kept

  /** A larger group, in the order of its positions, and the rounded shares of both kinds. */
  ghost predicate Shares(c: Config, rewards: seq<real>, idxes: seq<nat>, positive: int, zero: int) {
    && 0 < c.n < |idxes| && Listed(rewards, idxes) && Rising(idxes)
    && Nearest(positive, Positives(rewards, idxes) * c.n, |idxes|)
    && Nearest(zero, (|idxes| - Positives(rewards, idxes)) * c.n, |idxes|)
  }

  ghost predicate QuotasMet(c: Config, positives: nat, zeros: nat, positive: int, zero: int) {
    var mp, mz := Min(c.minNonZero, positives), Min(c.minZero, zeros);
    || FairShares(c.n, positive, zero, mp, mz)
    || ZeroBinds(c.n, positives, zero, mp, mz)
    || PositiveBinds(c.n, zeros, positive, zero, mp, mz)
  }

  lemma {:induction false} SortedOfKind(rewards: seq<real>, penalties: seq<real>, s: seq<nat>, positive: bool)
    requires AllOfKind(rewards, s, positive)
    ensures AllOfKind(rewards, SortByPenalty(penalties, s), positive) && |SortByPenalty(penalties, s)| == |s|
  {
    SortKeeps(penalties, s);
    var sorted := SortByPenalty(penalties, s);
    forall a | 0 <= a < |sorted| ensures sorted[a] < |rewards| && (rewards[sorted[a]] > 0.0) == positive {
      assert sorted[a] in multiset(sorted);
      assert sorted[a] in s;
    }
  }

  /** The first samples of either list, or the cheapest of both. */
  ghost predicate ChosenFrom(kept: seq<nat>, some: seq<nat>, others: seq<nat>, all: seq<nat>, n: int) {
    kept == if |some| + |others| == n then some + others else Take(all, n)
  }

  /** The positive samples by penalty, the others in order. */
  ghost predicate TwoLists(rewards: seq<real>, penalties: seq<real>, idxes: seq<nat>, nonZero: seq<nat>, rest: seq<nat>)
    requires Listed(rewards, idxes)
  {
    && nonZero == SortByPenalty(penalties, WithReward(rewards, idxes, true))
    && rest == WithReward(rewards, idxes, false)
    && AllOfKind(rewards, nonZero, true) && AllOfKind(rewards, rest, false)
    && |nonZero| == Positives(rewards, idxes) && |rest| == |idxes| - Positives(rewards, idxes)
  }

  lemma {:induction false} ListsOf(rewards: seq<real>, penalties: seq<real>, idxes: seq<nat>)
      returns (nonZero: seq<nat>, rest: seq<nat>)
    requires Listed(rewards, idxes) && Rising(idxes)
    ensures TwoLists(rewards, penalties, idxes, nonZero, rest)
  {
    KindsSplit(rewards, idxes, true);
    KindsSplit(rewards, idxes, false);
    SortedOfKind(rewards, penalties, WithReward(rewards, idxes, true), true);
    nonZero, rest := SortByPenalty(penalties, WithReward(rewards, idxes, true)), WithReward(rewards, idxes, false);
  }

  /** What the quotas take of either list. */
  lemma {:induction false} QuotaParts(c: Config, rewards: seq<real>, penalties: seq<real>, idxes: seq<nat>,
        positive: int, zero: int, nonZero: seq<nat>, rest: seq<nat>) returns (some: seq<nat>, others: seq<nat>)
    requires Shares(c, rewards, idxes, positive, zero) && TwoLists(rewards, penalties, idxes, nonZero, rest)
    ensures some <= nonZero && others <= rest
    ensures CountsRight(c, |nonZero|, |rest|, positive, zero, |some|, |others|)
    ensures ChosenFrom(Choose(c, rewards, penalties, idxes), some, others,
      SortByPenalty(penalties, nonZero + rest), c.n)
  {
    var q := QuotasOf(c, |nonZero|, |rest|, |idxes|);
    some, others := Take(nonZero, q.nonZero), Take(rest, q.zero);
    TakenLength(nonZero, q.nonZero);
    TakenLength(rest, q.zero);
    RoundedShare(|nonZero|, c.n, |idxes|, positive);
    RoundedShare(|rest|, c.n, |idxes|, zero);
    QuotaCounts(c, |nonZero|, |rest|, positive, zero);
  }

  lemma {:induction false} RoundedShare(count: nat, n: nat, all: nat, share: int)
    requires n < all && count <= all && Nearest(share, count * n, all)
    ensures Round(count * n, all) == share && 0 <= share <= count
  {
    RoundIsNearest(count * n, all);
    NearestUnique(share, Round(count * n, all), count * n, all);
    ShareBounds(share, count, n, all);
  }

  lemma {:induction false} PartsCounted(rewards: seq<real>, kept: seq<nat>, some: seq<nat>, others: seq<nat>,
        all: seq<nat>, n: int)
    requires ChosenFrom(kept, some, others, all, n) && |some| + |others| == n && Listed(rewards, kept)
    requires AllOfKind(rewards, some, true) && AllOfKind(rewards, others, false)
    ensures Positives(rewards, kept) == |some|
  {
    PositivesConcat(rewards, some, others);
    PositivesOfKind(rewards, some, true);
    PositivesOfKind(rewards, others, false);
  }

  /**
   How many positive samples are kept: their rounded share if no minimum binds; n less the minimum for
   the others if only that one binds; their own minimum if it binds.
  */
  ghost predicate KeptRight(c: Config, positives: nat, zeros: nat, positive: int, zero: int, kept: int) {
    var mp, mz := Min(c.minNonZero, positives), Min(c.minZero, zeros);
    && (FairShares(c.n, positive, zero, mp, mz) ==> kept == positive && c.n - kept == zero)
    && (ZeroBinds(c.n, positives, zero, mp, mz) ==> c.n - kept == mz)
    && (PositiveBinds(c.n, zeros, positive, zero, mp, mz) ==> kept == mp)
  }

  lemma {:induction false} CountsKept(c: Config, positives: nat, zeros: nat, positive: int, zero: int, some: nat,
        others: nat, kept: int)
    requires CountsRight(c, positives, zeros, positive, zero, some, others)
    requires some + others == c.n ==> kept == some
    ensures KeptRight(c, positives, zeros, positive, zero, kept)
  {
  }

  /** The rounded shares and the minimums say how many samples of each kind are kept. */
  lemma {:induction false} SharesKept(c: Config, rewards: seq<real>, penalties: seq<real>, idxes: seq<nat>,
        positive: int, zero: int, kept: seq<nat>)
    requires Shares(c, rewards, idxes, positive, zero) && kept == Choose(c, rewards, penalties, idxes)
    ensures |kept| == c.n && Listed(rewards, kept)
    ensures var positives := Positives(rewards, idxes);
      KeptRight(c, positives, |idxes| - positives, positive, zero, Positives(rewards, kept))
  {
    KeptListed(c, rewards, penalties, idxes);
    var nonZero, rest := ListsOf(rewards, penalties, idxes);
    var some, others := QuotaParts(c, rewards, penalties, idxes, positive, zero, nonZero, rest);
    if |some| + |others| == c.n {
      PartsCounted(rewards, kept, some, others, SortByPenalty(penalties, nonZero + rest), c.n);
    }
    CountsKept(c, |nonZero|, |rest|, positive, zero, |some|, |others|, Positives(rewards, kept));
  }

  lemma {:induction false} KeptListed(c: Config, rewards: seq<real>, penalties: seq<real>, idxes: seq<nat>)
    requires 0 < c.n < |idxes| && Listed(rewards, idxes) && Rising(idxes)
    ensures |Choose(c, rewards, penalties, idxes)| == c.n && Listed(rewards, Choose(c, rewards, penalties, idxes))
  {
    var kept := Choose(c, rewards, penalties, idxes);
    RisingOnce(idxes);
    ChooseExactly(c, rewards, penalties, idxes);
    forall a | 0 <= a < |kept| ensures kept[a] < |rewards| {
      assert Occurrences(kept, kept[a]) <= Occurrences(idxes, kept[a]);
      assert kept[a] in kept && kept[a] in idxes;
    }
  }

  lemma {:induction false} RisingOnce(s: seq<nat>)
    requires Rising(s)
    ensures Once(s)
  {
    forall a: nat, b: nat | a < b < |s| ensures Differ(s, a, b) {
    }
    DistinctOnce(s);
  }

  // ---------------------------------------------------------------- which are kept

  /** The sample has a positive reward. */
  predicate Positive(rewards: seq<real>, x: nat) {
    x < |rewards| && rewards[x] > 0.0
  }

  ghost function ByPosition(): (nat, nat) -> bool {
    (x: nat, y: nat) => x < y
  }

  /** Positive samples come first, and samples of one kind by position. */
  ghost function ByKind(rewards: seq<real>): (nat, nat) -> bool {
    (x: nat, y: nat) => if Positive(rewards, x) == Positive(rewards, y) then x < y else Positive(rewards, x)
  }

  lemma {:induction false} RisingTies(penalties: seq<real>, s: seq<nat>)
    requires Rising(s)
    ensures InOrder(penalties, ByPosition(), SortByPenalty(penalties, s))
  {
    forall a, b | 0 <= a < b < |s| ensures TiedAt(penalties, ByPosition(), s, a, b) {
    }
    SortStable(penalties, ByPosition(), s);
  }

  /** Of both lists the cheapest come first; among equals the positive ones, and then by position. */
  lemma {:induction false} BothInOrder(rewards: seq<real>, penalties: seq<real>, nonZero: seq<nat>, rest: seq<nat>)
    requires AllOfKind(rewards, nonZero, true) && AllOfKind(rewards, rest, false)
    requires InOrder(penalties, ByPosition(), nonZero) && Rising(rest)
    ensures InOrder(penalties, ByKind(rewards), SortByPenalty(penalties, nonZero + rest))
  {
    var s := nonZero + rest;
    forall a, b | 0 <= a < b < |s| ensures TiedAt(penalties, ByKind(rewards), s, a, b) {
      assert b < |nonZero| ==> EarlierAt(penalties, ByPosition(), nonZero, a, b);
    }
    SortStable(penalties, ByKind(rewards), s);
  }

  lemma {:induction false} InLists(rewards: seq<real>, penalties: seq<real>, idxes: seq<nat>, nonZero: seq<nat>,
        rest: seq<nat>, x: nat)
    requires Listed(rewards, idxes) && TwoLists(rewards, penalties, idxes, nonZero, rest)
    ensures x in nonZero <==> x in idxes && Positive(rewards, x)
    ensures x in rest <==> x in idxes && x < |rewards| && !Positive(rewards, x)
  {
    SortKeeps(penalties, WithReward(rewards, idxes, true));
    assert x in nonZero <==> x in multiset(nonZero);
    WithRewardIff(rewards, idxes, true, x);
    WithRewardIff(rewards, idxes, false, x);
  }

  /**
   When the quotas are met, the positive samples kept are the cheapest, the first of equally cheap ones,
   and the others kept are the first ones.
  */
  lemma {:induction false} FirstOfKindKept(c: Config, rewards: seq<real>, penalties: seq<real>, idxes: seq<nat>,
        positive: int, zero: int, x: nat, y: nat)
    requires Shares(c, rewards, idxes, positive, zero)
    requires QuotasMet(c, Positives(rewards, idxes), |idxes| - Positives(rewards, idxes), positive, zero)
    requires x in Choose(c, rewards, penalties, idxes)
    requires y in idxes && y < |rewards| && y !in Choose(c, rewards, penalties, idxes)
    requires Positive(rewards, x) == Positive(rewards, y)
    ensures if Positive(rewards, x) then Earlier(penalties, ByPosition(), x, y) else x < y
  {
    var nonZero, rest := ListsOf(rewards, penalties, idxes);
    var some, others := QuotaParts(c, rewards, penalties, idxes, positive, zero, nonZero, rest);
    InLists(rewards, penalties, idxes, nonZero, rest, y);
    KindsSplit(rewards, idxes, true);
    KindsSplit(rewards, idxes, false);
    RisingTies(penalties, WithReward(rewards, idxes, true));
    assert Choose(c, rewards, penalties, idxes) == some + others;
    FirstOfLists(rewards, penalties, nonZero, rest, some, others, x, y);
  }

  lemma {:induction false} FirstOfLists(rewards: seq<real>, penalties: seq<real>, nonZero: seq<nat>, rest: seq<nat>,
        some: seq<nat>, others: seq<nat>, x: nat, y: nat)
    requires InOrder(penalties, ByPosition(), nonZero) && Rising(rest) && some <= nonZero && others <= rest
    requires AllOfKind(rewards, nonZero, true) && AllOfKind(rewards, rest, false)
    requires x in some + others && y !in some + others && Positive(rewards, x) == Positive(rewards, y)
    requires if Positive(rewards, y) then y in nonZero else y in rest
    ensures if Positive(rewards, x) then Earlier(penalties, ByPosition(), x, y) else x < y
  {
    if Positive(rewards, x) {
      NotOfKind(rewards, others, false, x);
      PrefixEarlier(penalties, ByPosition(), nonZero, some, x, y);
    } else {
      NotOfKind(rewards, some, true, x);
      PrefixRises(rest, others, x, y);
    }
  }

  lemma {:induction false} NotOfKind(rewards: seq<real>, s: seq<nat>, positive: bool, x: nat)
    requires AllOfKind(rewards, s, positive) && Positive(rewards, x) != positive
    ensures x !in s
  {
  }

  lemma {:induction false} PrefixRises(s: seq<nat>, taken: seq<nat>, x: nat, y: nat)
    requires Rising(s) && taken <= s && x in taken && y in s && y !in taken
    ensures x < y
  {
    var a :| 0 <= a < |taken| && taken[a] == x;
    var rest := s[|taken|..];
    assert s == taken + rest && y in rest;
    var b :| 0 <= b < |rest| && rest[b] == y;
    assert s[a] == x && s[|taken| + b] == y;
  }

  /** Otherwise the n cheapest of all are kept; among equals the positive ones, and then the first ones. */
  lemma {:induction false} CheapestOfAllKept(c: Config, rewards: seq<real>, penalties: seq<real>, idxes: seq<nat>,
        positive: int, zero: int, x: nat, y: nat)
    requires Shares(c, rewards, idxes, positive, zero)
    requires !QuotasMet(c, Positives(rewards, idxes), |idxes| - Positives(rewards, idxes), positive, zero)
    requires x in Choose(c, rewards, penalties, idxes)
    requires y in idxes && y < |rewards| && y !in Choose(c, rewards, penalties, idxes)
    ensures Earlier(penalties, ByKind(rewards), x, y)
  {
    var nonZero, rest := ListsOf(rewards, penalties, idxes);
    var all := SortByPenalty(penalties, nonZero + rest);
    FallsBack(c, rewards, penalties, idxes, positive, zero, nonZero, rest, all);
    AllInOrder(rewards, penalties, idxes, nonZero, rest, all);
    InLists(rewards, penalties, idxes, nonZero, rest, y);
    AllListed(penalties, nonZero, rest, all, y);
    PrefixEarlier(penalties, ByKind(rewards), all, Take(all, c.n), x, y);
  }

  lemma {:induction false} FallsBack(c: Config, rewards: seq<real>, penalties: seq<real>, idxes: seq<nat>,
        positive: int, zero: int, nonZero: seq<nat>, rest: seq<nat>, all: seq<nat>)
    requires Shares(c, rewards, idxes, positive, zero) && TwoLists(rewards, penalties, idxes, nonZero, rest)
    requires !QuotasMet(c, |nonZero|, |rest|, positive, zero) && all == SortByPenalty(penalties, nonZero + rest)
    ensures Choose(c, rewards, penalties, idxes) == Take(all, c.n)
  {
    var some, others := QuotaParts(c, rewards, penalties, idxes, positive, zero, nonZero, rest);
  }

  lemma {:induction false} AllInOrder(rewards: seq<real>, penalties: seq<real>, idxes: seq<nat>, nonZero: seq<nat>,
        rest: seq<nat>, all: seq<nat>)
    requires Listed(rewards, idxes) && Rising(idxes) && TwoLists(rewards, penalties, idxes, nonZero, rest)
    requires all == SortByPenalty(penalties, nonZero + rest)
    ensures InOrder(penalties, ByKind(rewards), all)
  {
    KindsSplit(rewards, idxes, true);
    KindsSplit(rewards, idxes, false);
    RisingTies(penalties, WithReward(rewards, idxes, true));
    BothInOrder(rewards, penalties, nonZero, rest);
  }

  lemma {:induction false} AllListed(penalties: seq<real>, nonZero: seq<nat>, rest: seq<nat>, all: seq<nat>, y: nat)
    requires all == SortByPenalty(penalties, nonZero + rest) && (y in nonZero || y in rest)
    ensures y in all
  {
    SortKeeps(penalties, nonZero + rest);
    assert y in nonZero + rest;
    assert y in multiset(all);
  }

  // ---------------------------------------------------------------- what is left of a group

  /** The rewards differ by at most 1e-8 and 1e-5 of the size of the second one. */
  predicate WithinTolerance(first: real, other: real) {
    var size := if other < 0.0 then 0.0 - other else other;
    0.0 - 1.0 - 1000.0 * size <= 100000000.0 * (first - other) <= 1.0 + 1000.0 * size
  }

  lemma {:induction false} CloseExactly(first: real, other: real)
    ensures Close(first, other) <==> WithinTolerance(first, other)
  {
    var size := if other < 0.0 then 0.0 - other else other;
    assert 100000000.0 * (0.00000001 + 0.00001 * size) == 1.0 + 1000.0 * size;
  }

  /** All rewards from a up to b agree with the one at a. */
  ghost predicate Alike(rewards: seq<real>, a: nat, b: nat) {
    forall j :: a <= j < b <= |rewards| ==> WithinTolerance(rewards[a], rewards[j])
  }

  lemma {:induction false} AlikeExactly(rewards: seq<real>, a: nat, b: nat)
    requires a <= b <= |rewards|
    ensures EqualRewards(rewards, Interval(a, b)) <==> Alike(rewards, a, b)
  {
    var idxes := Interval(a, b);
    forall j: nat | a <= j < b
      ensures idxes[j - a] == j && (Close(rewards[a], rewards[j]) <==> WithinTolerance(rewards[a], rewards[j]))
    {
      CloseExactly(rewards[a], rewards[j]);
    }
    if Alike(rewards, a, b) {
      forall k | 0 <= k < |idxes| ensures Close(rewards[idxes[0]], rewards[idxes[k]]) {
        assert idxes[k] == a + k;
      }
    }
  }

  lemma {:induction false} GroupBounds(n: nat, size: nat, g: nat)
    requires size > 0 && g < Groups(n, size)
    ensures 0 <= g * size < n && GroupStart(n, size, g) == g * size
    ensures GroupStart(n, size, g + 1) == Min((g + 1) * size, n)
    ensures GroupIdxes(n, size, g) == Interval(g * size, Min((g + 1) * size, n))
  {
    var q, r := Groups(n, size), (n + size - 1) % size;
    assert n + size - 1 == q * size + r;
    MulMono(g + 1, q, size);
    MulMono(0, g, size);
    SuccTimes(g, size);
    MulMono(0, g + 1, size);
  }

  /**
   Which samples the final mask keeps: none of a group whose rewards are rejected as equal; else all of
   a group of n samples, none of a smaller one, and the chosen ones of a larger one.
  */
  lemma {:induction false} LeftExactly(c: Config, rewards: seq<real>, penalties: seq<real>, size: nat, mask: seq<bool>,
        g: nat, i: nat)
    requires size > 0 && |mask| == |rewards| && g < Groups(|rewards|, size)
    requires FinalGroup(c, rewards, penalties, size, mask, g)
    requires g * size <= i < (g + 1) * size && i < |rewards|
    ensures 0 <= g * size
    ensures var a, b := g * size, Min((g + 1) * size, |rewards|);
      mask[i] <==>
        !(c.rejectEqual && Alike(rewards, a, b))
        && (c.n <= 0 || b - a == c.n
            || (b - a > c.n && i in Choose(c, rewards, penalties, GroupIdxes(|rewards|, size, g))))
  {
    GroupBounds(|rewards|, size, g);
    var a, b := g * size, Min((g + 1) * size, |rewards|);
    AlikeExactly(rewards, a, b);
    LeftOfInterval(c, rewards, penalties, mask, Interval(a, b), a, b, i);
  }

  lemma {:induction false} LeftOfInterval(c: Config, rewards: seq<real>, penalties: seq<real>, mask: seq<bool>,
        idxes: seq<nat>, a: nat, b: nat, i: nat)
    requires a <= i < b <= |rewards| == |mask| && idxes == Interval(a, b)
    requires GroupChoice(c, rewards, penalties, idxes).Ok?
    requires mask[i] <==> i in FinalChoice(c, rewards, penalties, idxes)
    ensures mask[i] <==>
      !(c.rejectEqual && EqualRewards(rewards, idxes))
      && (c.n <= 0 || b - a == c.n || (b - a > c.n && i in Choose(c, rewards, penalties, idxes)))
  {
    assert idxes[i - a] == i && i in idxes;
  }
}
