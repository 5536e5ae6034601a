/**
 Group down-sampling: every group of rollouts is dropped or cut to exactly n samples, chosen by
 reward quotas and penalties. Because whole groups stay together, cutting the filtered lists into
 consecutive blocks of n recovers one original group per block, whatever the quotas are.
*/
module DownSampling {
  import opened Sequences
  import opened Outcomes

  // ---------------------------------------------------------------- groups

  /** The samples a..b, as positions. */
  function Interval(a: nat, b: nat): (r: seq<nat>)
    requires a <= b
    ensures |r| == b - a && forall i :: 0 <= i < |r| ==> r[i] == a + i
  {
    seq(b - a, i requires 0 <= i < b - a => a + i)
  }

  /** Where group g starts; groups have size rows, the last one may be shorter. */
  function GroupStart(n: nat, size: nat, g: nat): (r: nat)
    ensures r <= n
  {
    MulMono(0, g, size);
    if g * size <= n then g * size else n
  }

  lemma {:induction false} GroupsAscend(n: nat, size: nat, g: nat)
    ensures GroupStart(n, size, g) <= GroupStart(n, size, g + 1) <= GroupStart(n, size, g) + size
  {
    SuccTimes(g, size);
  }

  function GroupIdxes(n: nat, size: nat, g: nat): (r: seq<nat>)
    ensures forall a :: 0 <= a < |r| ==> GroupStart(n, size, g) <= r[a] < GroupStart(n, size, g + 1)
  {
    GroupsAscend(n, size, g);
    Interval(GroupStart(n, size, g), GroupStart(n, size, g + 1))
  }

  /** `i // group_size` names the group that holds position i. */
  lemma {:induction false} GroupOfPosition(n: nat, size: nat, g: nat, i: nat)
    requires size > 0 && i < n
    ensures GroupStart(n, size, g) <= i < GroupStart(n, size, g + 1) <==> i / size == g
  {
    var q, r := i / size, i % size;
    assert i == q * size + r;
    SuccTimes(g, size);
    SuccTimes(q, size);
    if q < g {
      MulMono(q + 1, g, size);
    } else if g < q {
      MulMono(g + 1, q, size);
    }
  }

  // ---------------------------------------------------------------- choosing n of a group

  /** The configuration: how many samples to keep, the quotas, and whether a penalty is switched on. */
  datatype Config = Config(n: int, minZero: int, minNonZero: int, penalties: bool, rejectEqual: bool)

  /** Python's `round` on a quotient: to the nearest integer, ties to the even one. */
  function Round(a: nat, b: nat): nat
    requires b > 0
  {
    var q, r := a / b, a % b;
    if 2 * r < b then q else if 2 * r > b then q + 1 else if q % 2 == 0 then q else q + 1
  }

  /** The slice `s[:q]`, for every integer q. */
  function Take(s: seq<nat>, q: int): (r: seq<nat>)
    ensures r <= s
  {
    if q >= 0 then s[..Min(q, |s|)] else s[..Max(0, |s| + q)]
  }

  function PenaltyAt(penalties: seq<real>, i: nat): real {
    if i < |penalties| then penalties[i] else 0.0
  }

  function InsertByPenalty(penalties: seq<real>, sorted: seq<nat>, x: nat): seq<nat> {
    if sorted == [] || PenaltyAt(penalties, sorted[|sorted| - 1]) <= PenaltyAt(penalties, x) then sorted + [x]
    else InsertByPenalty(penalties, sorted[..|sorted| - 1], x) + [sorted[|sorted| - 1]]
  }

  /** The stable sort by penalty. */
  function SortByPenalty(penalties: seq<real>, s: seq<nat>): seq<nat> {
    if s == [] then [] else InsertByPenalty(penalties, SortByPenalty(penalties, s[..|s| - 1]), s[|s| - 1])
  }

  /** The positions whose reward is positive, or is not. */
  function WithReward(rewards: seq<real>, idxes: seq<nat>, positive: bool): (r: seq<nat>)
    requires forall a :: 0 <= a < |idxes| ==> idxes[a] < |rewards|
    ensures |r| <= |idxes|
  {
    if idxes == [] then []
    else
      var r, last := WithReward(rewards, idxes[..|idxes| - 1], positive), idxes[|idxes| - 1];
      if (rewards[last] > 0.0) == positive then r + [last] else r
  }

  /** The quotas for samples with positive reward and for the others. */
  datatype Quotas = Quotas(nonZero: int, zero: int)

  function QuotasOf(c: Config, nonZero: nat, zero: nat, all: nat): Quotas
    requires all > 0 && c.n > 0
  {
    var start := Quotas(Round(nonZero * c.n, all), Round(zero * c.n, all));
    var z := Min(c.minZero, zero);
    var first := if start.zero <= z then Quotas(c.n - z, z) else start;
    var nz := Min(c.minNonZero, nonZero);
    if first.nonZero <= nz then Quotas(nz, c.n - nz) else first
  }

  /** The samples kept of a group with more than n samples. */
  function Choose(c: Config, rewards: seq<real>, penalties: seq<real>, idxes: seq<nat>): seq<nat>
    requires 0 < c.n < |idxes| && forall a :: 0 <= a < |idxes| ==> idxes[a] < |rewards|
  {
    var zero, nonZero := WithReward(rewards, idxes, false), SortByPenalty(penalties, WithReward(rewards, idxes, true));
    var q := QuotasOf(c, |nonZero|, |zero|, |idxes|);
    var chosen := Take(nonZero, q.nonZero) + Take(zero, q.zero);
    if |chosen| == c.n then chosen else Take(SortByPenalty(penalties, nonZero + zero), c.n)
  }

  // ---------------------------------------------------------------- what the choice keeps

  lemma {:induction false} InsertKeeps(penalties: seq<real>, sorted: seq<nat>, x: nat)
    ensures multiset(InsertByPenalty(penalties, sorted, x)) == multiset(sorted) + multiset{x}
  {
    if !(sorted == [] || PenaltyAt(penalties, sorted[|sorted| - 1]) <= PenaltyAt(penalties, x)) {
      InsertKeeps(penalties, sorted[..|sorted| - 1], x);
      assert sorted == sorted[..|sorted| - 1] + [sorted[|sorted| - 1]];
    }
  }

  lemma {:induction false} SortKeeps(penalties: seq<real>, s: seq<nat>)
    ensures multiset(SortByPenalty(penalties, s)) == multiset(s) && |SortByPenalty(penalties, s)| == |s|
  {
    if s != [] {
      SortKeeps(penalties, s[..|s| - 1]);
      InsertKeeps(penalties, SortByPenalty(penalties, s[..|s| - 1]), s[|s| - 1]);
      assert s == s[..|s| - 1] + [s[|s| - 1]];
    }
    assert |SortByPenalty(penalties, s)| == |multiset(SortByPenalty(penalties, s))|;
  }

  lemma {:induction false} RewardsSplit(rewards: seq<real>, idxes: seq<nat>)
    requires forall a :: 0 <= a < |idxes| ==> idxes[a] < |rewards|
    ensures multiset(WithReward(rewards, idxes, true)) + multiset(WithReward(rewards, idxes, false)) == multiset(idxes)
    ensures |WithReward(rewards, idxes, true)| + |WithReward(rewards, idxes, false)| == |idxes|
  {
    if idxes != [] {
      RewardsSplit(rewards, idxes[..|idxes| - 1]);
      assert idxes == idxes[..|idxes| - 1] + [idxes[|idxes| - 1]];
    }
  }

  lemma {:induction false} PrefixCount(s: seq<nat>, t: seq<nat>)
    requires s <= t
    ensures forall x: nat :: Occurrences(s, x) <= Occurrences(t, x)
  {
    assert t == s + t[|s|..];
  }

  /** Exactly n samples of the group are chosen, each once. */
  lemma {:induction false} ChooseExactly(c: Config, rewards: seq<real>, penalties: seq<real>, idxes: seq<nat>)
    requires 0 < c.n < |idxes| && (forall a :: 0 <= a < |idxes| ==> idxes[a] < |rewards|) && Once(idxes)
    ensures |Choose(c, rewards, penalties, idxes)| == c.n && Once(Choose(c, rewards, penalties, idxes))
    ensures forall x: nat :: Occurrences(Choose(c, rewards, penalties, idxes), x) <= Occurrences(idxes, x)
  {
    var zero, positive := WithReward(rewards, idxes, false), WithReward(rewards, idxes, true);
    var nonZero := SortByPenalty(penalties, positive);
    var q := QuotasOf(c, |nonZero|, |zero|, |idxes|);
    RewardsSplit(rewards, idxes);
    SortKeeps(penalties, positive);
    SortKeeps(penalties, nonZero + zero);
    PrefixCount(Take(nonZero, q.nonZero), nonZero);
    PrefixCount(Take(zero, q.zero), zero);
    var sorted := SortByPenalty(penalties, nonZero + zero);
    PrefixCount(Take(sorted, c.n), sorted);
    forall x: nat ensures Occurrences(Choose(c, rewards, penalties, idxes), x) <= Occurrences(idxes, x) <= 1 {
      assert Occurrences(idxes, x) == Occurrences(nonZero, x) + Occurrences(zero, x);
    }
  }

  // ---------------------------------------------------------------- cheap samples first

  ghost predicate NotAbove(penalties: seq<real>, s: seq<nat>, a: nat, b: nat)
    requires a < |s| && b < |s|
  {
    PenaltyAt(penalties, s[a]) <= PenaltyAt(penalties, s[b])
  }

  ghost predicate Sorted(penalties: seq<real>, s: seq<nat>) {
    forall a, b {:trigger NotAbove(penalties, s, a, b)} :: 0 <= a < b < |s| ==> NotAbove(penalties, s, a, b)
  }

  lemma {:induction false} InsertSorted(penalties: seq<real>, sorted: seq<nat>, x: nat)
    requires Sorted(penalties, sorted)
    ensures Sorted(penalties, InsertByPenalty(penalties, sorted, x))
  {
    var r := InsertByPenalty(penalties, sorted, x);
    if sorted != [] {
      var n := |sorted| - 1;
      var front := sorted[..n];
      forall a: nat, b: nat | a < b < n ensures NotAbove(penalties, front, a, b) {
        assert NotAbove(penalties, sorted, a, b);
      }
      InsertSorted(penalties, front, x);
      InsertKeeps(penalties, front, x);
      var r' := InsertByPenalty(penalties, front, x);
      forall a: nat, b: nat | a < b < |r| ensures NotAbove(penalties, r, a, b) {
        if PenaltyAt(penalties, sorted[n]) <= PenaltyAt(penalties, x) {
          assert a < n ==> NotAbove(penalties, sorted, a, n);
          assert b <= n ==> NotAbove(penalties, sorted, a, b);
        } else if b < |r'| {
          assert NotAbove(penalties, r', a, b);
        } else {
          InsertedOrOld(front, x, r', a);
          if r'[a] != x {
            var c :| 0 <= c < n && front[c] == r'[a];
            assert NotAbove(penalties, sorted, c, n);
          }
        }
      }
    }
  }

  lemma {:induction false} SortSorted(penalties: seq<real>, s: seq<nat>)
    ensures Sorted(penalties, SortByPenalty(penalties, s))
  {
    if s != [] {
      SortSorted(penalties, s[..|s| - 1]);
      InsertSorted(penalties, SortByPenalty(penalties, s[..|s| - 1]), s[|s| - 1]);
    }
  }

  lemma {:induction false} PrefixCheapest(penalties: seq<real>, sorted: seq<nat>, taken: seq<nat>, x: nat, y: nat)
    requires Sorted(penalties, sorted) && taken <= sorted && x in taken && y in sorted && y !in taken
    ensures PenaltyAt(penalties, x) <= PenaltyAt(penalties, y)
  {
    var a :| 0 <= a < |taken| && taken[a] == x;
    var rest := sorted[|taken|..];
    assert sorted == taken + rest && y in rest;
    var b :| 0 <= b < |rest| && rest[b] == y;
    assert NotAbove(penalties, sorted, a, |taken| + b);
  }

  lemma {:induction false} WithRewardIff(rewards: seq<real>, idxes: seq<nat>, positive: bool, i: nat)
    requires forall a :: 0 <= a < |idxes| ==> idxes[a] < |rewards|
    ensures i in WithReward(rewards, idxes, positive) <==> i in idxes && i < |rewards| && (rewards[i] > 0.0) == positive
  {
    if idxes != [] {
      WithRewardIff(rewards, idxes[..|idxes| - 1], positive, i);
      assert idxes == idxes[..|idxes| - 1] + [idxes[|idxes| - 1]];
    }
  }

  /** Of the samples with positive reward, no kept one has a higher penalty than one that is dropped. */
  lemma {:induction false} CheapestKept(c: Config, rewards: seq<real>, penalties: seq<real>, idxes: seq<nat>, x: nat,
        y: nat)
    requires 0 < c.n < |idxes| && (forall a :: 0 <= a < |idxes| ==> idxes[a] < |rewards|)
    requires x in idxes && y in idxes && x < |rewards| && y < |rewards| && rewards[x] > 0.0 && rewards[y] > 0.0
    requires x in Choose(c, rewards, penalties, idxes) && y !in Choose(c, rewards, penalties, idxes)
    ensures PenaltyAt(penalties, x) <= PenaltyAt(penalties, y)
  {
    var zero, positive := WithReward(rewards, idxes, false), WithReward(rewards, idxes, true);
    var nonZero := SortByPenalty(penalties, positive);
    var q := QuotasOf(c, |nonZero|, |zero|, |idxes|);
    var some := Take(nonZero, q.nonZero) + Take(zero, q.zero);
    SortKeeps(penalties, positive);
    SortSorted(penalties, positive);
    WithRewardIff(rewards, idxes, true, x);
    WithRewardIff(rewards, idxes, true, y);
    WithRewardIff(rewards, idxes, false, x);
    assert x in multiset(positive) && y in multiset(positive);
    assert x in nonZero && y in nonZero;
    if |some| == c.n {
      InTake(zero, q.zero, x);
      PrefixCheapest(penalties, nonZero, Take(nonZero, q.nonZero), x, y);
    } else {
      SortKeeps(penalties, nonZero + zero);
      SortSorted(penalties, nonZero + zero);
      assert y in multiset(nonZero + zero);
      var all := SortByPenalty(penalties, nonZero + zero);
      PrefixCheapest(penalties, all, Take(all, c.n), x, y);
    }
  }

  lemma {:induction false} InTake(s: seq<nat>, q: int, x: nat)
    ensures x in Take(s, q) ==> x in s
  {
  }

  // ---------------------------------------------------------------- the masks

  /** `torch.allclose` with its default tolerances. */
  predicate Close(a: real, b: real) {
    var difference, size := if a < b then b - a else a - b, if b < 0.0 then 0.0 - b else b;
    difference <= 0.00000001 + 0.00001 * size
  }

  predicate EqualRewards(rewards: seq<real>, idxes: seq<nat>)
    requires forall a :: 0 <= a < |idxes| ==> idxes[a] < |rewards|
  {
    forall a :: 0 <= a < |idxes| ==> Close(rewards[idxes[0]], rewards[idxes[a]])
  }

  /** The samples of one group that the choice keeps; without penalties a larger group cannot be ranked. */
  function GroupChoice(c: Config, rewards: seq<real>, penalties: seq<real>, idxes: seq<nat>): Result<seq<nat>>
    requires forall a :: 0 <= a < |idxes| ==> idxes[a] < |rewards|
  {
    if c.n <= 0 || |idxes| == c.n then Ok(idxes)
    else if |idxes| < c.n then Ok([])
    else if !c.penalties then Err(TypeError)
    else Ok(Choose(c, rewards, penalties, idxes))
  }

  function Groups(n: nat, size: nat): nat
    requires size > 0
  {
    (n + size - 1) / size
  }

  lemma {:induction false} GroupsCover(n: nat, size: nat)
    requires size > 0
    ensures GroupStart(n, size, 0) == 0 && GroupStart(n, size, Groups(n, size)) == n
  {
    var g, r := Groups(n, size), (n + size - 1) % size;
    assert n + size - 1 == g * size + r;
  }

  /** Inside groups below g the mask marks what the choice keeps. */
  ghost predicate Marked(c: Config, rewards: seq<real>, penalties: seq<real>, size: nat, mask: seq<bool>, g: nat)
    requires |mask| == |rewards|
  {
    forall h: nat {:trigger MarkedGroup(c, rewards, penalties, size, mask, h)} :: h < g ==>
      MarkedGroup(c, rewards, penalties, size, mask, h)
  }

  ghost predicate MarkedGroup(c: Config, rewards: seq<real>, penalties: seq<real>, size: nat, mask: seq<bool>, h: nat)
    requires |mask| == |rewards|
  {
    var idxes := GroupIdxes(|rewards|, size, h);
    var choice := GroupChoice(c, rewards, penalties, idxes);
    choice.Ok? && forall i :: GroupStart(|rewards|, size, h) <= i < GroupStart(|rewards|, size, h + 1) ==>
      (mask[i] <==> i in choice.value)
  }

  /** Marks the chosen positions as valid. */
  method Mark(mask: array<bool>, chosen: seq<nat>)
    requires forall a :: 0 <= a < |chosen| ==> chosen[a] < mask.Length
    modifies mask
    ensures forall i :: 0 <= i < mask.Length ==> mask[i] == (old(mask[i]) || i in chosen)
  {
    for a := 0 to |chosen|
      invariant forall i :: 0 <= i < mask.Length ==> mask[i] == (old(mask[i]) || i in chosen[..a])
    {
      assert chosen[..a + 1] == chosen[..a] + [chosen[a]];
      mask[chosen[a]] := true;
    }
    assert chosen[..|chosen|] == chosen;
  }

  lemma {:induction false} ChoiceInside(c: Config, rewards: seq<real>, penalties: seq<real>, idxes: seq<nat>)
    requires (forall a :: 0 <= a < |idxes| ==> idxes[a] < |rewards|) && Once(idxes)
    requires GroupChoice(c, rewards, penalties, idxes).Ok?
    ensures var chosen := GroupChoice(c, rewards, penalties, idxes).value;
      && (forall i: nat :: i in chosen ==> i in idxes) && Once(chosen)
      && (c.n > 0 ==> |chosen| == 0 || |chosen| == c.n)
  {
    if c.n > 0 && |idxes| > c.n {
      ChooseExactly(c, rewards, penalties, idxes);
      forall i: nat | i in Choose(c, rewards, penalties, idxes) ensures i in idxes {
        assert Occurrences(Choose(c, rewards, penalties, idxes), i) <= Occurrences(idxes, i);
      }
    }
  }

  lemma {:induction false} IntervalOnce(a: nat, b: nat)
    requires a <= b
    ensures Once(Interval(a, b)) && forall i: nat :: i in Interval(a, b) <==> a <= i < b
  {
    forall i: nat ensures i in Interval(a, b) <==> a <= i < b {
      assert a <= i < b ==> Interval(a, b)[i - a] == i;
    }
    IntervalCount(a, b);
  }

  lemma {:induction false} IntervalCount(a: nat, b: nat)
    requires a <= b
    ensures Once(Interval(a, b))
  {
    if a < b {
      IntervalCount(a, b - 1);
      assert Interval(a, b) == Interval(a, b - 1) + [b - 1];
      assert b - 1 !in Interval(a, b - 1);
      forall x: nat ensures Occurrences(Interval(a, b), x) <= 1 {
        assert Occurrences(Interval(a, b - 1), x) <= 1;
      }
    }
  }

  // ---------------------------------------------------------------- whole groups survive

  /** The marked positions from a up to b. */
  function Trues(mask: seq<bool>, a: nat, b: nat): (r: seq<nat>)
    requires a <= b <= |mask|
    ensures forall i :: 0 <= i < |r| ==> r[i] < b
    decreases b - a
  {
    if a == b then [] else Trues(mask, a, b - 1) + if mask[b - 1] then [b - 1] else []
  }

  lemma {:induction false} TruesSplit(mask: seq<bool>, a: nat, m: nat, b: nat)
    requires a <= m <= b <= |mask|
    ensures Trues(mask, a, b) == Trues(mask, a, m) + Trues(mask, m, b)
    decreases b - m
  {
    if m < b {
      TruesSplit(mask, a, m, b - 1);
    }
  }

  lemma {:induction false} HeadIn(s: seq<nat>)
    ensures s != [] ==> s[0] in s
  {
  }

  /** As many positions are marked as the duplicate-free list of marked positions has. */
  lemma {:induction false} TruesCount(mask: seq<bool>, a: nat, b: nat, chosen: seq<nat>)
    requires a <= b <= |mask| && Once(chosen) && forall i: nat :: i in chosen <==> a <= i < b && mask[i]
    ensures |Trues(mask, a, b)| == |chosen|
    decreases b - a
  {
    if a == b {
      HeadIn(chosen);
    } else if mask[b - 1] {
      var p :| 0 <= p < |chosen| && chosen[p] == b - 1;
      RemoveOnce(chosen, p);
      TruesCount(mask, a, b - 1, RemoveAt(chosen, p));
    } else {
      TruesCount(mask, a, b - 1, chosen);
    }
  }

  /** The positions that are left of group g. */
  function LeftOf(mask: seq<bool>, size: nat, g: nat): seq<nat> {
    GroupsAscend(|mask|, size, g);
    Trues(mask, GroupStart(|mask|, size, g), GroupStart(|mask|, size, g + 1))
  }

  /** Every group is left with n samples or none. */
  ghost predicate WholeGroups(mask: seq<bool>, size: nat, n: nat, groups: nat) {
    forall g: nat :: g < groups ==> |LeftOf(mask, size, g)| == 0 || |LeftOf(mask, size, g)| == n
  }

  /** The n positions from p on are what is left of one group. */
  ghost predicate IsGroupBlock(mask: seq<bool>, size: nat, n: nat, groups: nat, kept: seq<nat>, p: nat)
    requires p + n <= |kept|
  {
    exists g: nat :: g < groups && kept[p..p + n] == LeftOf(mask, size, g)
  }

  lemma {:induction false} BlockStep(mask: seq<bool>, size: nat, n: nat, g: nat, before: seq<nat>, own: seq<nat>,
        p: nat, j: nat)
    requires n > 0 && |before| % n == 0 && (|own| == 0 || |own| == n) && own == LeftOf(mask, size, g)
    requires p == j * n && p + n <= |before| + |own|
    requires p + n <= |before| ==> IsGroupBlock(mask, size, n, g, before, p)
    ensures IsGroupBlock(mask, size, n, g + 1, before + own, p)
  {
    BlockPlace(|before|, n, |own|, p, j);
    if p + n <= |before| {
      assert (before + own)[p..p + n] == before[p..p + n];
    } else {
      assert (before + own)[p..p + n] == own;
    }
  }

  lemma {:induction false} WholeLength(before: nat, own: nat, n: nat)
    requires n > 0 && before % n == 0 && (own == 0 || own == n)
    ensures (before + own) % n == 0
  {
    var q := before / n;
    assert before == q * n;
    SuccTimes(q, n);
    DivModUnique(before + n, q + 1, 0, n);
  }

  /** Cutting the positions that are left into blocks of n recovers one group per block. */
  lemma {:induction false} BlocksAreGroups(mask: seq<bool>, size: nat, n: nat, groups: nat, p: nat, j: nat)
    requires n > 0 && WholeGroups(mask, size, n, groups)
    ensures var kept := Trues(mask, 0, GroupStart(|mask|, size, groups));
      && |kept| % n == 0
      && (p == j * n && p + n <= |kept| ==> IsGroupBlock(mask, size, n, groups, kept, p))
  {
    if groups > 0 {
      var g := groups - 1;
      BlocksAreGroups(mask, size, n, g, p, j);
      GroupsAscend(|mask|, size, g);
      TruesSplit(mask, 0, GroupStart(|mask|, size, g), GroupStart(|mask|, size, groups));
      var before, own := Trues(mask, 0, GroupStart(|mask|, size, g)), LeftOf(mask, size, g);
      WholeLength(|before|, |own|, n);
      if p == j * n && p + n <= |before| + |own| {
        BlockStep(mask, size, n, g, before, own, p, j);
      }
    }
  }

  /** A block that fits is an old one, or the new one. */
  lemma {:induction false} BlockPlace(before: nat, n: nat, more: nat, p: nat, j: nat)
    requires n > 0 && before % n == 0 && (more == 0 || more == n) && p == j * n && p + n <= before + more
    ensures p + n <= before || (p == before && more == n)
  {
    var q := before / n;
    assert before == q * n;
    SuccTimes(j, n);
    SuccTimes(q, n);
    if j < q {
      MulMono(j + 1, q, n);
    } else if j > q {
      MulMono(q + 1, j, n);
    }
  }

  // ---------------------------------------------------------------- the final mask

  /** What is left of a group: nothing if its rewards are rejected as equal, else the choice. */
  function FinalChoice(c: Config, rewards: seq<real>, penalties: seq<real>, idxes: seq<nat>): seq<nat>
    requires forall a :: 0 <= a < |idxes| ==> idxes[a] < |rewards|
    requires GroupChoice(c, rewards, penalties, idxes).Ok?
  {
    if c.rejectEqual && EqualRewards(rewards, idxes) then [] else GroupChoice(c, rewards, penalties, idxes).value
  }

  ghost predicate FinalGroup(c: Config, rewards: seq<real>, penalties: seq<real>, size: nat, mask: seq<bool>, g: nat)
    requires |mask| == |rewards|
  {
    var idxes := GroupIdxes(|rewards|, size, g);
    && GroupChoice(c, rewards, penalties, idxes).Ok?
    && forall i :: GroupStart(|rewards|, size, g) <= i < GroupStart(|rewards|, size, g + 1) ==>
         (mask[i] <==> i in FinalChoice(c, rewards, penalties, idxes))
  }

  lemma {:induction false} FinalGroupIsWhole(c: Config, rewards: seq<real>, penalties: seq<real>, size: nat,
        mask: seq<bool>, g: nat)
    requires c.n > 0 && |mask| == |rewards| && FinalGroup(c, rewards, penalties, size, mask, g)
    ensures |LeftOf(mask, size, g)| == 0 || |LeftOf(mask, size, g)| == c.n
  {
    var n := |rewards|;
    var idxes, a, b := GroupIdxes(n, size, g), GroupStart(n, size, g), GroupStart(n, size, g + 1);
    GroupsAscend(|rewards|, size, g);
    IntervalOnce(a, b);
    ChoiceInside(c, rewards, penalties, idxes);
    var chosen := FinalChoice(c, rewards, penalties, idxes);
    assert Once([]);
    forall i: nat ensures i in chosen <==> a <= i < b && mask[i] {
      assert i in chosen ==> i in idxes;
    }
    TruesCount(mask, a, b, chosen);
  }

  /** However the quotas fall, every group is left with exactly n samples or none. */
  lemma {:induction false} GroupsStayWhole(c: Config, rewards: seq<real>, penalties: seq<real>, size: nat,
        mask: seq<bool>)
    requires c.n > 0 && size > 0 && |mask| == |rewards|
    requires forall g: nat :: g < Groups(|rewards|, size) ==> FinalGroup(c, rewards, penalties, size, mask, g)
    ensures WholeGroups(mask, size, c.n, Groups(|rewards|, size))
    ensures GroupStart(|mask|, size, Groups(|rewards|, size)) == |mask|
  {
    GroupsCover(|rewards|, size);
    forall g: nat | g < Groups(|rewards|, size) ensures |LeftOf(mask, size, g)| == 0 || |LeftOf(mask, size, g)| == c.n {
      FinalGroupIsWhole(c, rewards, penalties, size, mask, g);
    }
  }

  // ---------------------------------------------------------------- the masks, computed

  /** `_weighted_group_choice`: fails exactly if a group with more than n samples has no penalties to rank by. */
  method WeightedGroupChoice(c: Config, size: nat, rewards: seq<real>,
        penalties: seq<real>) returns (r: Result<seq<bool>>)
    requires size > 0
    ensures r.Ok? ==> |r.value| == |rewards| && Marked(c, rewards, penalties, size, r.value, Groups(|rewards|, size))
    ensures r == Err(TypeError) || r.Ok?
    ensures r.Err? <==>
      exists g: nat ::
        g < Groups(|rewards|, size) && GroupChoice(c, rewards, penalties, GroupIdxes(|rewards|, size, g)).Err?
  {
    var n := |rewards|;
    var mask := new bool[n](_ => c.n <= 0);
    for g := 0 to Groups(n, size)
      invariant forall h: nat {:trigger GroupIdxes(n, size, h)} :: h < g ==>
        GroupChoice(c, rewards, penalties, GroupIdxes(n, size, h)).Ok?
      invariant forall i :: GroupStart(n, size, g) <= i < n ==> mask[i] == (c.n <= 0)
      invariant Marked(c, rewards, penalties, size, mask[..], g)
    {
      var idxes := GroupIdxes(n, size, g);
      GroupsAscend(n, size, g);
      IntervalOnce(GroupStart(n, size, g), GroupStart(n, size, g + 1));
      var choice := GroupChoice(c, rewards, penalties, idxes);
      if choice.Err? {
        return Err(TypeError);
      }
      ghost var before := mask[..];
      ChoiceInside(c, rewards, penalties, idxes);
      forall a | 0 <= a < |choice.value| ensures choice.value[a] < mask.Length {
        assert choice.value[a] in choice.value;
      }
      Mark(mask, choice.value);
      forall h: nat | h < g + 1 ensures MarkedGroup(c, rewards, penalties, size, mask[..], h) {
        if h < g {
          EarlierGroup(n, size, h, g);
          assert MarkedGroup(c, rewards, penalties, size, before, h);
        }
      }
    }
    r := Ok(mask[..]);
  }

  lemma {:induction false} EarlierGroup(n: nat, size: nat, h: nat, g: nat)
    requires h < g
    ensures GroupStart(n, size, h + 1) <= GroupStart(n, size, g)
  {
    MulMono(h + 1, g, size);
  }

  /**
   The choice fails exactly if n samples are wanted, no penalty is switched on and the first group is
   larger than n.
  */
  lemma {:induction false} ChoiceFailsExactly(c: Config, size: nat, rewards: seq<real>, penalties: seq<real>)
    requires size > 0
    ensures
      (exists g: nat ::
        g < Groups(|rewards|, size) && GroupChoice(c, rewards, penalties, GroupIdxes(|rewards|, size, g)).Err?)
      <==> c.n > 0 && !c.penalties && Min(size, |rewards|) > c.n
  {
    var n := |rewards|;
    if g: nat :| g < Groups(n, size) && GroupChoice(c, rewards, penalties, GroupIdxes(n, size, g)).Err? {
      GroupsAscend(n, size, g);
    }
    if c.n > 0 && !c.penalties && Min(size, n) > c.n {
      GroupsCover(n, size);
      SuccTimes(0, size);
      assert |GroupIdxes(n, size, 0)| == Min(size, n);
      assert GroupChoice(c, rewards, penalties, GroupIdxes(n, size, 0)).Err?;
    }
  }

  /** In group g the mask keeps everything or nothing, as its rewards are equal or not. */
  ghost predicate RejectGroup(rewards: seq<real>, size: nat, mask: seq<bool>, g: nat)
    requires |mask| == |rewards|
  {
    forall i :: GroupStart(|rewards|, size, g) <= i < GroupStart(|rewards|, size, g + 1) ==>
      mask[i] == !EqualRewards(rewards, GroupIdxes(|rewards|, size, g))
  }

  /** `_reject_equal_reward`. */
  method RejectEqualReward(size: nat, rewards: seq<real>) returns (mask: seq<bool>)
    requires size > 0
    ensures |mask| == |rewards|
    ensures forall g: nat {:trigger RejectGroup(rewards, size, mask, g)} :: g < Groups(|rewards|, size) ==>
      RejectGroup(rewards, size, mask, g)
  {
    var n := |rewards|;
    var valid := new bool[n](_ => true);
    for g := 0 to Groups(n, size)
      invariant forall i :: GroupStart(n, size, g) <= i < n ==> valid[i]
      invariant forall h: nat {:trigger RejectGroup(rewards, size, valid[..], h)} :: h < g ==>
        RejectGroup(rewards, size, valid[..], h)
    {
      ghost var before := valid[..];
      GroupsAscend(n, size, g);
      var idxes := GroupIdxes(n, size, g);
      IntervalOnce(GroupStart(n, size, g), GroupStart(n, size, g + 1));
      if EqualRewards(rewards, idxes) {
        Unmark(valid, idxes);
      }
      forall h: nat | h < g + 1 ensures RejectGroup(rewards, size, valid[..], h) {
        if h < g {
          EarlierGroup(n, size, h, g);
          assert RejectGroup(rewards, size, before, h);
        }
      }
    }
    mask := valid[..];
  }

  method Unmark(mask: array<bool>, idxes: seq<nat>)
    requires forall a :: 0 <= a < |idxes| ==> idxes[a] < mask.Length
    modifies mask
    ensures forall i :: 0 <= i < mask.Length ==> mask[i] == (old(mask[i]) && i !in idxes)
  {
    for a := 0 to |idxes|
      invariant forall i :: 0 <= i < mask.Length ==> mask[i] == (old(mask[i]) && i !in idxes[..a])
    {
      assert idxes[..a + 1] == idxes[..a] + [idxes[a]];
      mask[idxes[a]] := false;
    }
    assert idxes[..|idxes|] == idxes;
  }

  function And(a: seq<bool>, b: seq<bool>): (r: seq<bool>)
    requires |a| == |b|
    ensures |r| == |a| && forall i :: 0 <= i < |a| ==> r[i] == (a[i] && b[i])
  {
    seq(|a|, i requires 0 <= i < |a| => a[i] && b[i])
  }

  /** `_apply_mask_to_list`. */
  method Filter<T>(list: seq<T>, mask: seq<bool>) returns (r: seq<T>)
    requires |list| == |mask|
    ensures r == Gather(list, Trues(mask, 0, |mask|))
  {
    r := [];
    for i := 0 to |list|
      invariant r == Gather(list, Trues(mask, 0, i))
    {
      if mask[i] {
        r := r + [list[i]];
      }
    }
  }

  /** The rollout result: its per-sample lists, all of one length. */
  class RolloutResult {
    var groupSize: nat
    var promptIds: seq<seq<int>>
    var responseIds: seq<seq<int>>
    var isEnd: seq<bool>
    var rewards: seq<real>

    ghost predicate Valid()
      reads this
    {
      |promptIds| == |responseIds| == |isEnd| == |rewards|
    }

    constructor (groupSize: nat, promptIds: seq<seq<int>>, responseIds: seq<seq<int>>, isEnd: seq<bool>,
          rewards: seq<real>)
      requires |promptIds| == |responseIds| == |isEnd| == |rewards|
      ensures Valid() && this.groupSize == groupSize && this.promptIds == promptIds && this.responseIds == responseIds
      ensures this.isEnd == isEnd && this.rewards == rewards
    {
      this.groupSize, this.promptIds, this.responseIds := groupSize, promptIds, responseIds;
      this.isEnd, this.rewards := isEnd, rewards;
    }

    /** `down_sample_batch`: on success every list keeps exactly the marked samples, and groups are n large. */
    method DownSample(c: Config, penalties: seq<real>) returns (r: Result<()>, ghost mask: seq<bool>)
      requires Valid()
      modifies this
      ensures r == if c.n > 0 && !c.penalties && Min(Max(1, old(groupSize)), |old(rewards)|) > c.n then Err(TypeError)
                   else Ok(())
      ensures r.Err? ==> unchanged(this)
      ensures r.Ok? ==> |mask| == |old(rewards)|
      ensures r.Ok? ==> forall g: nat :: g < Groups(|old(rewards)|, Max(1, old(groupSize))) ==>
        FinalGroup(c, old(rewards), penalties, Max(1, old(groupSize)), mask, g)
      ensures r.Ok? ==>
        && promptIds == Gather(old(promptIds), Trues(mask, 0, |mask|))
        && responseIds == Gather(old(responseIds), Trues(mask, 0, |mask|))
        && isEnd == Gather(old(isEnd), Trues(mask, 0, |mask|))
        && rewards == Gather(old(rewards), Trues(mask, 0, |mask|))
        && groupSize == if c.n > 0 then c.n else old(groupSize)
    {
      var size := Max(1, groupSize);
      ChoiceFailsExactly(c, size, rewards, penalties);
      var reject := seq(|rewards|, _ => true);
      if c.rejectEqual {
        reject := RejectEqualReward(size, rewards);
      }
      var choice := WeightedGroupChoice(c, size, rewards, penalties);
      if choice.Err? {
        mask := [];
        return Err(TypeError), mask;
      }
      var final := And(reject, choice.value);
      mask := final;
      forall g: nat | g < Groups(|rewards|, size) ensures FinalGroup(c, rewards, penalties, size, mask, g) {
        assert MarkedGroup(c, rewards, penalties, size, choice.value, g);
        assert c.rejectEqual ==> RejectGroup(rewards, size, reject, g);
      }
      var newPrompts := Filter(promptIds, final);
      var newResponses := Filter(responseIds, final);
      var newEnds := Filter(isEnd, final);
      var newRewards := Filter(rewards, final);
      promptIds, responseIds, isEnd, rewards := newPrompts, newResponses, newEnds, newRewards;
      if c.n > 0 {
        groupSize := c.n;
      }
      r := Ok(());
    }
  }
}
