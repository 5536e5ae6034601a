/**
 Dynamic micro-batches: every data-parallel rank starts from a Best Fit Decreasing count, the ranks
 agree on the largest, and all of them retry with one more micro-batch until every micro-batch of
 every rank fits. Collectives are modelled by their meaning over the sequence of ranks.
*/
module DynamicBatches {
  import opened Sequences
  import opened Outcomes
  import opened BestFit
  import opened Partitioner

  /**
   One rank's batch: attention-mask counts, prompt plus response lengths, and the padded length
   that bounds every attention-mask count.
  */
  datatype RankBatch = RankBatch(lens: seq<nat>, tokens: seq<nat>, maxSeqLen: nat) {
    ghost predicate Valid() {
      |tokens| == |lens| && forall i :: 0 <= i < |lens| ==> lens[i] <= maxSeqLen
    }
  }

  ghost predicate ValidRanks(ranks: seq<RankBatch>) {
    ranks != [] && forall r :: 0 <= r < |ranks| ==> ranks[r].Valid()
  }

  // ---------------------------------------------------------------- the starting count

  function RoundUp(a: nat, b: nat): nat
    requires b > 0
  {
    var q: nat := (a + b - 1) / b;
    q * b
  }

  function Rounded(count: nat, divisor: Option<nat>): nat
    requires divisor.Some? ==> divisor.value > 0
  {
    if divisor.Some? then RoundUp(count, divisor.value) else count
  }

  /** One rank's own count, before the ranks agree. */
  function OwnCount(b: RankBatch, cap: nat, minimum: Option<nat>): nat {
    var groups := |Groups(b.lens, cap)|;
    if minimum.Some? && minimum.value > groups then minimum.value else groups
  }

  function OwnCounts(ranks: seq<RankBatch>, cap: nat, minimum: Option<nat>): (r: seq<nat>)
    ensures |r| == |ranks|
    ensures forall i :: 0 <= i < |ranks| ==> r[i] == OwnCount(ranks[i], cap, minimum)
  {
    seq(|ranks|, i requires 0 <= i < |ranks| => OwnCount(ranks[i], cap, minimum))
  }

  /** The counts all ranks start from: the maximum if they agree, rounded up to the divisor. */
  function StartCounts(ranks: seq<RankBatch>, cap: nat, minimum: Option<nat>, divisor: Option<nat>, same: bool)
    : (r: seq<nat>)
    requires divisor.Some? ==> divisor.value > 0
    ensures |r| == |ranks|
  {
    var own := OwnCounts(ranks, cap, minimum);
    seq<nat>(|ranks|, i requires 0 <= i < |ranks| => Rounded(if same then Longest(own) else own[i], divisor))
  }

  // ---------------------------------------------------------------- one round

  predicate PartsFit(b: RankBatch, parts: seq<seq<nat>>, cap: nat) {
    forall p :: 0 <= p < |parts| ==> Load(b.tokens, parts[p]) <= cap
  }

  /** Why a rank with `size` samples cannot split its batch into k parts, if it cannot. */
  function SplitError(size: nat, k: nat): Option<Error> {
    if size < k then Some(AssertionError)
    else if k == 0 then Some(IndexError)
    else None
  }

  predicate RankFits(b: RankBatch, k: nat, cap: nat) {
    SplitError(|b.lens|, k).None? && PartsFit(b, Balanced(b.lens, k, false), cap)
  }

  function Sizes(ranks: seq<RankBatch>): (r: seq<nat>)
    ensures |r| == |ranks| && forall i :: 0 <= i < |ranks| ==> r[i] == |ranks[i].lens|
  {
    seq(|ranks|, i requires 0 <= i < |ranks| => |ranks[i].lens|)
  }

  /** Whether rank r's batch fits when split into k parts. */
  function FitsAt(ranks: seq<RankBatch>, cap: nat): (nat, nat) -> bool {
    (r: nat, k: nat) => r < |ranks| && RankFits(ranks[r], k, cap)
  }

  // ---------------------------------------------------------------- when a round fits

  lemma {:induction false} LoadMember(lens: seq<nat>, part: seq<nat>, i: nat)
    requires i in part
    ensures Load(lens, part) >= LengthAt(lens, i)
  {
    if part[0] != i {
      LoadMember(lens, part[1..], i);
    }
  }

  lemma {:induction false} LoadMonotone(small: seq<nat>, large: seq<nat>, part: seq<nat>)
    requires |small| == |large| && forall i :: 0 <= i < |small| ==> small[i] <= large[i]
    ensures Load(small, part) <= Load(large, part)
  {
    if part != [] {
      LoadMonotone(small, large, part[1..]);
    }
  }

  /** An item above the cap keeps every round from fitting. */
  lemma {:induction false} OversizeNeverFits(b: RankBatch, k: nat, cap: nat, i: nat)
    requires b.Valid() && i < |b.lens| && b.tokens[i] > cap
    ensures !RankFits(b, k, cap)
  {
    if SplitError(|b.lens|, k).None? {
      OversizePart(b, k, cap, i);
    }
  }

  lemma {:induction false} OversizePart(b: RankBatch, k: nat, cap: nat, i: nat)
    requires b.Valid() && 0 < k <= |b.lens| && i < |b.lens| && b.tokens[i] > cap
    ensures !PartsFit(b, Balanced(b.lens, k, false), cap)
  {
    var parts := Balanced(b.lens, k, false);
    BalancedValid(b.lens, k, false);
    RangeCount(|b.lens|, i);
    assert i in multiset(Flatten<nat>(parts));
    var p := FlattenFind<nat>(parts, i);
    LoadMember(b.tokens, parts[p], i);
  }

  lemma {:induction false} NonEmptyParts(parts: seq<seq<nat>>)
    requires forall p :: 0 <= p < |parts| ==> parts[p] != []
    ensures |Flatten<nat>(parts)| >= |parts|
    ensures |Flatten<nat>(parts)| == |parts| ==> forall p :: 0 <= p < |parts| ==> |parts[p]| == 1
  {
    if parts != [] {
      NonEmptyParts(parts[1..]);
      assert forall p :: 1 <= p < |parts| ==> parts[p] == parts[1..][p - 1];
    }
  }

  lemma {:induction false} PartitionSize(parts: seq<seq<nat>>, n: nat)
    requires IsPartition(parts, n)
    ensures |Flatten<nat>(parts)| == n
  {
    assert |multiset(Flatten<nat>(parts))| == |multiset(Range(n))|;
  }

  /** One micro-batch per sample fits as soon as every sample does. */
  lemma {:induction false} SinglesFit(b: RankBatch, cap: nat)
    requires b.Valid() && b.lens != []
    requires forall i :: 0 <= i < |b.lens| ==> b.tokens[i] <= cap
    ensures RankFits(b, |b.lens|, cap)
  {
    var parts := Balanced(b.lens, |b.lens|, false);
    BalancedValid(b.lens, |b.lens|, false);
    PartitionSize(parts, |b.lens|);
    NonEmptyParts(parts);
    forall p | 0 <= p < |parts| ensures Load(b.tokens, parts[p]) <= cap {
      assert parts[p] == [parts[p][0]];
      LoadPush(b.tokens, [], parts[p][0]);
    }
  }

  /** A count whose total capacity leaves room for one longest item per part but one fits. */
  lemma {:induction false} RoomyFits(b: RankBatch, k: nat, cap: nat)
    requires b.Valid() && 0 < k <= |b.lens|
    requires forall i :: 0 <= i < |b.lens| ==> b.tokens[i] <= b.lens[i]
    requires k * cap >= Sum(b.lens) + (k - 1) * Longest(b.lens)
    ensures RankFits(b, k, cap)
  {
    forall p | 0 <= p < k ensures Load(b.tokens, Balanced(b.lens, k, false)[p]) <= cap {
      var part := Balanced(b.lens, k, false)[p];
      BalancedFullest(b.lens, k, p);
      LoadMonotone(b.tokens, b.lens, part);
      CancelFactor(k, Load(b.lens, part), cap);
    }
  }

  lemma {:induction false} CancelFactor(k: int, x: int, y: int)
    requires k > 0 && k * x <= k * y
    ensures x <= y
  {
    if x > y {
      MulMono(y + 1, x, k);
    }
  }

  // ---------------------------------------------------------------- the retry loop

  ghost predicate AllFit(counts: seq<nat>, fits: (nat, nat) -> bool) {
    forall r :: 0 <= r < |counts| ==> fits(r, counts[r])
  }

  ghost predicate Splittable(sizes: seq<nat>, counts: seq<nat>) {
    |counts| == |sizes| && forall r :: 0 <= r < |sizes| ==> SplitError(sizes[r], counts[r]).None?
  }

  /** The error of the first rank that cannot split its batch. */
  function FirstError(sizes: seq<nat>, counts: seq<nat>): (e: Option<Error>)
    requires |counts| == |sizes|
    ensures e.None? <==> Splittable(sizes, counts)
  {
    if sizes == [] then None
    else if SplitError(sizes[0], counts[0]).Some? then SplitError(sizes[0], counts[0])
    else
      var e := FirstError(sizes[1..], counts[1..]);
      assert Splittable(sizes, counts) <==> Splittable(sizes[1..], counts[1..]) by {
        assert forall r :: 1 <= r < |sizes| ==> sizes[r] == sizes[1..][r - 1] && counts[r] == counts[1..][r - 1];
      }
      e
  }

  function Incremented(counts: seq<nat>): (r: seq<nat>)
    ensures |r| == |counts| && forall i :: 0 <= i < |counts| ==> r[i] == counts[i] + 1
  {
    seq<nat>(|counts|, i requires 0 <= i < |counts| => counts[i] + 1)
  }

  /** The counts of the first round in which every rank fits, or the error that ends the run. */
  ghost function Settle(sizes: seq<nat>, counts: seq<nat>, fits: (nat, nat) -> bool): (r: Result<seq<nat>>)
    requires sizes != [] && |counts| == |sizes|
    ensures r.Ok? ==> Splittable(sizes, r.value) && AllFit(r.value, fits)
    decreases if counts[0] <= sizes[0] then sizes[0] + 1 - counts[0] else 0
  {
    var e := FirstError(sizes, counts);
    if e.Some? then Err(e.value)
    else if AllFit(counts, fits) then Ok(counts)
    else Settle(sizes, Incremented(counts), fits)
  }

  /** No rank increments alone: all counts are the starting counts plus the number of retries. */
  lemma {:induction false} Lockstep(sizes: seq<nat>, counts: seq<nat>, fits: (nat, nat) -> bool) returns (retries: nat)
    requires sizes != [] && |counts| == |sizes| && Settle(sizes, counts, fits).Ok?
    ensures forall r :: 0 <= r < |sizes| ==> Settle(sizes, counts, fits).value[r] == counts[r] + retries
    decreases if counts[0] <= sizes[0] then sizes[0] + 1 - counts[0] else 0
  {
    if AllFit(counts, fits) {
      retries := 0;
    } else {
      var later := Lockstep(sizes, Incremented(counts), fits);
      retries := later + 1;
    }
  }

  /** After d retries every rank has a count it can split its batch into, with micro-batches that fit. */
  ghost predicate FitsAfter(sizes: seq<nat>, counts: seq<nat>, fits: (nat, nat) -> bool, d: nat)
    requires |counts| == |sizes|
  {
    forall r :: 0 <= r < |sizes| ==> 0 < counts[r] + d <= sizes[r] && fits(r, counts[r] + d)
  }

  /** Some rank's micro-batches do not fit after d retries. */
  ghost predicate Refused(counts: seq<nat>, fits: (nat, nat) -> bool, d: nat) {
    exists r :: 0 <= r < |counts| && !fits(r, counts[r] + d)
  }

  /**
   Whatever the ranks start from, the loop ends after exactly d retries if and only if every rank
   starts above zero, fits after d retries, and after fewer retries some rank did not.
  */
  lemma {:induction false} SettlesAtFirstFit(sizes: seq<nat>, counts: seq<nat>, fits: (nat, nat) -> bool, d: nat)
    requires sizes != [] && |counts| == |sizes|
    ensures (Settle(sizes, counts, fits).Ok? && Settle(sizes, counts, fits).value[0] == counts[0] + d)
      <==> (forall r :: 0 <= r < |counts| ==> counts[r] > 0)
           && FitsAfter(sizes, counts, fits, d) && forall e: nat :: e < d ==> Refused(counts, fits, e)
    decreases d
  {
    SettlesAtOnce(sizes, counts, fits);
    if d > 0 {
      var next := Incremented(counts);
      SettlesAtFirstFit(sizes, next, fits, d - 1);
      FitsShift(sizes, counts, next, fits, d);
      RefusedShift(next, counts, fits, d);
      SettlesLater(sizes, counts, fits, d);
    }
  }

  lemma {:induction false} FitsShift(sizes: seq<nat>, counts: seq<nat>, next: seq<nat>, fits: (nat, nat) -> bool,
        d: nat)
    requires d > 0 && |counts| == |sizes| && next == Incremented(counts)
    ensures FitsAfter(sizes, next, fits, d - 1) <==> FitsAfter(sizes, counts, fits, d)
    ensures forall e: nat :: Refused(next, fits, e) <==> Refused(counts, fits, e + 1)
  {
    assert forall r :: 0 <= r < |sizes| ==> next[r] + (d - 1) == counts[r] + d;
    forall e: nat ensures Refused(next, fits, e) <==> Refused(counts, fits, e + 1) {
      assert forall r :: 0 <= r < |counts| ==> next[r] + e == counts[r] + (e + 1);
    }
  }

  lemma {:induction false} RefusedShift(next: seq<nat>, counts: seq<nat>, fits: (nat, nat) -> bool, d: nat)
    requires d > 0 && forall e: nat :: Refused(next, fits, e) <==> Refused(counts, fits, e + 1)
    ensures (forall e: nat :: e < d ==> Refused(counts, fits, e))
      <==> Refused(counts, fits, 0) && forall e: nat :: e < d - 1 ==> Refused(next, fits, e)
  {
    if Refused(counts, fits, 0) && forall e: nat :: e < d - 1 ==> Refused(next, fits, e) {
      forall e: nat | e < d ensures Refused(counts, fits, e) {
        assert e > 0 ==> Refused(next, fits, e - 1);
      }
    }
  }

  lemma {:induction false} SettlesAtOnce(sizes: seq<nat>, counts: seq<nat>, fits: (nat, nat) -> bool)
    requires sizes != [] && |counts| == |sizes|
    ensures (Settle(sizes, counts, fits).Ok? && Settle(sizes, counts, fits).value[0] == counts[0])
      <==> FitsAfter(sizes, counts, fits, 0)
    ensures Refused(counts, fits, 0) <==> !AllFit(counts, fits)
  {
    if Splittable(sizes, counts) && !AllFit(counts, fits) && Settle(sizes, Incremented(counts), fits).Ok? {
      var later := Lockstep(sizes, Incremented(counts), fits);
    }
    assert forall r :: 0 <= r < |counts| ==> counts[r] + 0 == counts[r];
    assert FitsAfter(sizes, counts, fits, 0) <==> Splittable(sizes, counts) && AllFit(counts, fits);
  }

  lemma {:induction false} SettlesLater(sizes: seq<nat>, counts: seq<nat>, fits: (nat, nat) -> bool, d: nat)
    requires sizes != [] && |counts| == |sizes| && d > 0
    ensures (Settle(sizes, counts, fits).Ok? && Settle(sizes, counts, fits).value[0] == counts[0] + d)
      <==> Splittable(sizes, counts) && Refused(counts, fits, 0)
           && Settle(sizes, Incremented(counts), fits).Ok?
           && Settle(sizes, Incremented(counts), fits).value[0] == Incremented(counts)[0] + (d - 1)
  {
    SettlesAtOnce(sizes, counts, fits);
  }

  ghost predicate AllEqual(s: seq<nat>, k: nat) {
    forall r :: 0 <= r < |s| ==> s[r] == k
  }

  ghost predicate RoundFits(ranks: nat, fits: (nat, nat) -> bool, k: nat) {
    forall r :: 0 <= r < ranks ==> fits(r, k)
  }

  /** The first count from k on at which every rank fits, or a count above n. */
  ghost function FirstCount(ranks: nat, fits: (nat, nat) -> bool, k: nat, n: nat): (c: nat)
    ensures k <= c && (c <= n ==> RoundFits(ranks, fits, c))
    ensures forall early: nat :: k <= early < c && early <= n ==> !RoundFits(ranks, fits, early)
    decreases if k <= n then n + 1 - k else 0
  {
    if k > n || RoundFits(ranks, fits, k) then k else FirstCount(ranks, fits, k + 1, n)
  }

  lemma {:induction false} UniformFits(counts: seq<nat>, fits: (nat, nat) -> bool, k: nat)
    requires AllEqual(counts, k)
    ensures AllFit(counts, fits) <==> RoundFits(|counts|, fits, k)
  {
    forall r: nat | r < |counts| ensures fits(r, counts[r]) == fits(r, k) {
      assert counts[r] == k;
    }
  }

  /**
   With n samples on every rank and an agreed count k, all ranks stop together at the first
   count at which every one of them fits, and fail together when there is none up to n.
  */
  lemma {:induction false} SettleFirst(sizes: seq<nat>, counts: seq<nat>, fits: (nat, nat) -> bool, k: nat, n: nat)
    requires sizes != [] && |counts| == |sizes| && AllEqual(counts, k) && AllEqual(sizes, n) && k > 0
    ensures var c := FirstCount(|sizes|, fits, k, n);
      if c <= n then Settle(sizes, counts, fits).Ok? && AllEqual(Settle(sizes, counts, fits).value, c)
      else Settle(sizes, counts, fits) == Err(AssertionError)
    decreases if k <= n then n + 1 - k else 0
  {
    if k > n {
      assert sizes[0] == n && counts[0] == k;
    } else {
      UniformFits(counts, fits, k);
      if !AllFit(counts, fits) {
        SettleFirst(sizes, Incremented(counts), fits, k + 1, n);
      }
    }
  }

  ghost predicate SamplesFit(ranks: seq<RankBatch>, cap: nat) {
    forall r, i :: 0 <= r < |ranks| && 0 <= i < |ranks[r].tokens| ==> ranks[r].tokens[i] <= cap
  }

  /**
   The retry loop ends well exactly when the agreed starting count is at most the number of
   samples and every sample fits into a micro-batch of its own.
  */
  lemma {:induction false} RetrySucceedsExactly(ranks: seq<RankBatch>, counts: seq<nat>, cap: nat, k: nat, n: nat)
    requires ValidRanks(ranks) && |counts| == |ranks| && AllEqual(counts, k) && k > 0
    requires AllEqual(Sizes(ranks), n)
    ensures Settle(Sizes(ranks), counts, FitsAt(ranks, cap)).Ok? <==> k <= n && SamplesFit(ranks, cap)
    ensures Settle(Sizes(ranks), counts, FitsAt(ranks, cap)).Err? ==>
      Settle(Sizes(ranks), counts, FitsAt(ranks, cap)) == Err(AssertionError)
  {
    SettleFirst(Sizes(ranks), counts, FitsAt(ranks, cap), k, n);
    if SamplesFit(ranks, cap) {
      if 0 < n {
        RoundOfSinglesFits(ranks, cap, n);
      }
    } else {
      NoRoundFits(ranks, cap, FirstCount(|ranks|, FitsAt(ranks, cap), k, n));
    }
  }

  lemma {:induction false} NoRoundFits(ranks: seq<RankBatch>, cap: nat, c: nat)
    requires ValidRanks(ranks) && !SamplesFit(ranks, cap)
    ensures !RoundFits(|ranks|, FitsAt(ranks, cap), c)
  {
    var r, i :| 0 <= r < |ranks| && 0 <= i < |ranks[r].tokens| && ranks[r].tokens[i] > cap;
    OversizeNeverFits(ranks[r], c, cap, i);
    assert !FitsAt(ranks, cap)(r, c);
  }

  lemma {:induction false} RoundOfSinglesFits(ranks: seq<RankBatch>, cap: nat, n: nat)
    requires ValidRanks(ranks) && AllEqual(Sizes(ranks), n) && n > 0 && SamplesFit(ranks, cap)
    ensures RoundFits(|ranks|, FitsAt(ranks, cap), n)
  {
    forall r | 0 <= r < |ranks| ensures RankFits(ranks[r], n, cap) {
      assert Sizes(ranks)[r] == n;
      SinglesFit(ranks[r], cap);
    }
  }

  /** The loop stops no later than the first count at which every rank has room. */
  lemma {:induction false} RetryStopsBy(ranks: seq<RankBatch>, counts: seq<nat>, cap: nat, k: nat, n: nat, stop: nat)
    requires ValidRanks(ranks) && |counts| == |ranks| && AllEqual(counts, k) && AllEqual(Sizes(ranks), n)
    requires 0 < k <= stop <= n
    requires forall r, i :: 0 <= r < |ranks| && 0 <= i < |ranks[r].lens| ==> ranks[r].tokens[i] <= ranks[r].lens[i]
    requires forall r :: 0 <= r < |ranks| ==>
      stop * cap >= Sum(ranks[r].lens) + (stop - 1) * Longest(ranks[r].lens)
    ensures FirstCount(|ranks|, FitsAt(ranks, cap), k, n) <= stop
  {
    RoundWithRoomFits(ranks, cap, n, stop);
  }

  lemma {:induction false} RoundWithRoomFits(ranks: seq<RankBatch>, cap: nat, n: nat, stop: nat)
    requires ValidRanks(ranks) && AllEqual(Sizes(ranks), n) && 0 < stop <= n
    requires forall r, i :: 0 <= r < |ranks| && 0 <= i < |ranks[r].lens| ==> ranks[r].tokens[i] <= ranks[r].lens[i]
    requires forall r :: 0 <= r < |ranks| ==>
      stop * cap >= Sum(ranks[r].lens) + (stop - 1) * Longest(ranks[r].lens)
    ensures RoundFits(|ranks|, FitsAt(ranks, cap), stop)
  {
    forall r | 0 <= r < |ranks| ensures RankFits(ranks[r], stop, cap) {
      assert Sizes(ranks)[r] == n;
      RoomyFits(ranks[r], stop, cap);
    }
  }

  // ---------------------------------------------------------------- the starting count is feasible

  lemma {:induction false} GroupsAtMost(lens: seq<nat>, cap: nat)
    requires forall i :: 0 <= i < |lens| ==> lens[i] <= cap
    ensures |Groups(lens, cap)| <= |lens|
    ensures lens != [] ==> |Groups(lens, cap)| > 0
  {
    GroupsValid(lens, cap);
    PartitionSize(Groups(lens, cap), |lens|);
    NonEmptyParts(Groups(lens, cap));
  }

  /** Without a divisor the ranks start from one common count that never exceeds the sample count. */
  lemma {:induction false} StartFeasible(ranks: seq<RankBatch>, cap: nat, minimum: Option<nat>, n: nat) returns (k: nat)
    requires ValidRanks(ranks) && AllEqual(Sizes(ranks), n) && n > 0
    requires forall r :: 0 <= r < |ranks| ==> ranks[r].maxSeqLen <= cap
    requires minimum.Some? ==> minimum.value <= n
    ensures 0 < k <= n && AllEqual(StartCounts(ranks, cap, minimum, None, true), k)
  {
    var own := OwnCounts(ranks, cap, minimum);
    k := Longest(own);
    forall r | 0 <= r < |ranks| ensures 0 < own[r] <= n {
      assert Sizes(ranks)[r] == n;
      GroupsAtMost(ranks[r].lens, cap);
    }
    assert own[0] > 0;
  }

  // ---------------------------------------------------------------- the divisor

  lemma {:induction false} RoundUpFits(count: nat, divisor: nat)
    requires divisor > 0
    ensures RoundUp(count, divisor) % divisor == 0 && count <= RoundUp(count, divisor) < count + divisor
  {
    var q := (count + divisor - 1) / divisor;
    DivModUnique(q * divisor, q, 0, divisor);
    assert count + divisor - 1 == q * divisor + (count + divisor - 1) % divisor;
  }

  /** The count that all ranks start from. */
  function Agreed(ranks: seq<RankBatch>, cap: nat, minimum: Option<nat>, divisor: Option<nat>): nat
    requires divisor.Some? ==> divisor.value > 0
  {
    Rounded(Longest(OwnCounts(ranks, cap, minimum)), divisor)
  }

  /** The count covers the rank's Best Fit Decreasing groups and the minimum, and is a multiple of the divisor. */
  ghost predicate Enough(b: RankBatch, cap: nat, minimum: Option<nat>, divisor: Option<nat>, k: nat)
    requires divisor.Some? ==> divisor.value > 0
  {
    && |Groups(b.lens, cap)| <= k
    && (minimum.Some? ==> minimum.value <= k)
    && (divisor.Some? ==> k % divisor.value == 0)
  }

  ghost predicate EnoughForAll(ranks: seq<RankBatch>, cap: nat, minimum: Option<nat>, divisor: Option<nat>, k: nat)
    requires divisor.Some? ==> divisor.value > 0
  {
    forall r :: 0 <= r < |ranks| ==> Enough(ranks[r], cap, minimum, divisor, k)
  }

  lemma {:induction false} RoundedIsLeast(count: nat, divisor: nat, k: nat)
    requires divisor > 0 && count <= k && k % divisor == 0
    ensures RoundUp(count, divisor) <= k
  {
    RoundUpFits(count, divisor);
    var m, q := k / divisor, RoundUp(count, divisor) / divisor;
    assert k == m * divisor && RoundUp(count, divisor) == q * divisor;
    if m < q {
      MulMono(m + 1, q, divisor);
      SuccTimes(m, divisor);
    }
  }

  /** Ranks that agree start from the least count that is enough for every rank. */
  lemma {:induction false} AgreedIsLeast(ranks: seq<RankBatch>, cap: nat, minimum: Option<nat>, divisor: Option<nat>,
        k: nat)
    requires ranks != [] && (divisor.Some? ==> divisor.value > 0)
    ensures var start := Agreed(ranks, cap, minimum, divisor);
      && EnoughForAll(ranks, cap, minimum, divisor, start)
      && (EnoughForAll(ranks, cap, minimum, divisor, k) ==> start <= k)
    ensures forall r :: 0 <= r < |ranks| ==>
      StartCounts(ranks, cap, minimum, divisor, true)[r] == Agreed(ranks, cap, minimum, divisor)
  {
    var own := OwnCounts(ranks, cap, minimum);
    if divisor.Some? {
      RoundUpFits(Longest(own), divisor.value);
    }
    forall r | 0 <= r < |ranks| ensures Enough(ranks[r], cap, minimum, divisor, Agreed(ranks, cap, minimum, divisor)) {
      assert own[r] <= Longest(own);
    }
    if EnoughForAll(ranks, cap, minimum, divisor, k) {
      var r :| 0 <= r < |own| && own[r] == Longest(own);
      assert Enough(ranks[r], cap, minimum, divisor, k);
      if divisor.Some? {
        RoundedIsLeast(Longest(own), divisor.value, k);
      }
    }
  }

  /** A rank on its own starts from the least count that is enough for it. */
  lemma {:induction false} OwnStartIsLeast(ranks: seq<RankBatch>, cap: nat, minimum: Option<nat>, divisor: Option<nat>,
        r: nat, k: nat)
    requires r < |ranks| && (divisor.Some? ==> divisor.value > 0)
    ensures var start := StartCounts(ranks, cap, minimum, divisor, false)[r];
      && Enough(ranks[r], cap, minimum, divisor, start)
      && (Enough(ranks[r], cap, minimum, divisor, k) ==> start <= k)
  {
    var own := OwnCount(ranks[r], cap, minimum);
    if divisor.Some? {
      RoundUpFits(own, divisor.value);
      if Enough(ranks[r], cap, minimum, divisor, k) {
        RoundedIsLeast(own, divisor.value, k);
      }
    }
  }

  lemma {:induction false} StartsAgree(ranks: seq<RankBatch>, cap: nat, minimum: Option<nat>, divisor: Option<nat>,
        n: nat)
    requires ValidRanks(ranks) && AllEqual(Sizes(ranks), n) && n > 0 && (divisor.Some? ==> divisor.value > 0)
    requires forall r :: 0 <= r < |ranks| ==> ranks[r].maxSeqLen <= cap
    ensures AllEqual(StartCounts(ranks, cap, minimum, divisor, true), Agreed(ranks, cap, minimum, divisor))
    ensures Agreed(ranks, cap, minimum, divisor) > 0
  {
    var own := OwnCounts(ranks, cap, minimum);
    assert Sizes(ranks)[0] == n;
    GroupsAtMost(ranks[0].lens, cap);
    assert own[0] > 0;
    if divisor.Some? {
      RoundUpFits(Longest(own), divisor.value);
    }
  }

  ghost predicate AllDivisible(counts: seq<nat>, divisor: nat)
    requires divisor > 0
  {
    forall r :: 0 <= r < |counts| ==> counts[r] % divisor == 0
  }

  /**
   The start is a multiple of the divisor. The final counts are multiples exactly if the first count
   from there on at which every rank's batch fits is one.
  */
  lemma {:induction false} DivisorKept(ranks: seq<RankBatch>, cap: nat, minimum: Option<nat>, divisor: nat, n: nat)
    requires ValidRanks(ranks) && AllEqual(Sizes(ranks), n) && n > 0 && divisor > 0
    requires forall r :: 0 <= r < |ranks| ==> ranks[r].maxSeqLen <= cap
    ensures var start, fits := StartCounts(ranks, cap, minimum, Some(divisor), true), FitsAt(ranks, cap);
      var final := Settle(Sizes(ranks), start, fits);
      var first := FirstCount(|ranks|, fits, Agreed(ranks, cap, minimum, Some(divisor)), n);
      && AllDivisible(start, divisor)
      && (final.Ok? <==> first <= n)
      && (final.Ok? ==> AllEqual(final.value, first) && (AllDivisible(final.value, divisor) <==> first % divisor == 0))
  {
    var k := Agreed(ranks, cap, minimum, Some(divisor));
    StartsAgree(ranks, cap, minimum, Some(divisor), n);
    RoundUpFits(Longest(OwnCounts(ranks, cap, minimum)), divisor);
    var start, fits := StartCounts(ranks, cap, minimum, Some(divisor), true), FitsAt(ranks, cap);
    SettleFirst(Sizes(ranks), start, fits, k, n);
    var final := Settle(Sizes(ranks), start, fits);
    assert final.Ok? ==> |final.value| == |ranks| && final.value[0] == FirstCount(|ranks|, fits, k, n);
  }

  lemma {:induction false} StaysExactly(sizes: seq<nat>, counts: seq<nat>, fits: (nat, nat) -> bool, k: nat, n: nat)
    requires sizes != [] && |counts| == |sizes| && AllEqual(counts, k) && AllEqual(sizes, n) && k > 0
    ensures Settle(sizes, counts, fits) == Ok(counts) <==> k <= n && RoundFits(|sizes|, fits, k)
  {
    SettleFirst(sizes, counts, fits, k, n);
    var final := Settle(sizes, counts, fits);
    if k <= n && RoundFits(|sizes|, fits, k) {
      assert final.value == counts;
    } else if k <= n {
      assert final.Ok? ==> final.value[0] > k == counts[0];
    }
  }

  /**
   The loop keeps the agreed start, divisor or not, exactly if there are samples enough and every
   rank's batch fits.
  */
  lemma {:induction false} StartKeptExactly(ranks: seq<RankBatch>, cap: nat, minimum: Option<nat>,
        divisor: Option<nat>, n: nat, k: nat)
    requires ValidRanks(ranks) && AllEqual(Sizes(ranks), n) && n > 0 && (divisor.Some? ==> divisor.value > 0)
    requires forall r :: 0 <= r < |ranks| ==> ranks[r].maxSeqLen <= cap
    requires k == Agreed(ranks, cap, minimum, divisor)
    ensures var start := StartCounts(ranks, cap, minimum, divisor, true);
      Settle(Sizes(ranks), start, FitsAt(ranks, cap)) == Ok(start)
      <==> k <= n && RoundFits(|ranks|, FitsAt(ranks, cap), k)
  {
    StartsAgree(ranks, cap, minimum, divisor, n);
    StaysExactly(Sizes(ranks), StartCounts(ranks, cap, minimum, divisor, true), FitsAt(ranks, cap), k, n);
  }

  /**
   With room for one longest sample per micro-batch at the rounded start there is no retry, so the
   divisor is kept.
  */
  lemma {:induction false} RoomKeepsDivisor(ranks: seq<RankBatch>, cap: nat, minimum: Option<nat>, divisor: nat,
        n: nat, k: nat)
    requires ValidRanks(ranks) && AllEqual(Sizes(ranks), n) && n > 0 && divisor > 0
    requires forall r :: 0 <= r < |ranks| ==> ranks[r].maxSeqLen <= cap
    requires k == Agreed(ranks, cap, minimum, Some(divisor)) && k <= n
    requires forall r, i :: 0 <= r < |ranks| && 0 <= i < |ranks[r].lens| ==> ranks[r].tokens[i] <= ranks[r].lens[i]
    requires forall r :: 0 <= r < |ranks| ==> k * cap >= Sum(ranks[r].lens) + (k - 1) * Longest(ranks[r].lens)
    ensures var start := StartCounts(ranks, cap, minimum, Some(divisor), true);
      Settle(Sizes(ranks), start, FitsAt(ranks, cap)) == Ok(start) && AllDivisible(start, divisor)
  {
    DivisorKept(ranks, cap, minimum, divisor, n);
    StartsAgree(ranks, cap, minimum, Some(divisor), n);
    RoundWithRoomFits(ranks, cap, n, k);
    var start := StartCounts(ranks, cap, minimum, Some(divisor), true);
    assert Settle(Sizes(ranks), start, FitsAt(ranks, cap)).value == start;
  }

  // ---------------------------------------------------------------- the program

  ghost predicate CapTooSmall(ranks: seq<RankBatch>, cap: nat) {
    exists r :: 0 <= r < |ranks| && cap < ranks[r].maxSeqLen
  }

  ghost predicate RanksSplittable(ranks: seq<RankBatch>, counts: seq<nat>) {
    |counts| == |ranks| && forall r :: 0 <= r < |ranks| ==> SplitError(|ranks[r].lens|, counts[r]).None?
  }

  /** The partitions of every rank at the given counts. */
  function SplitAll(ranks: seq<RankBatch>, counts: seq<nat>): (r: seq<seq<seq<nat>>>)
    requires RanksSplittable(ranks, counts)
    ensures |r| == |ranks|
    ensures forall i :: 0 <= i < |ranks| ==> r[i] == Balanced(ranks[i].lens, counts[i], false)
  {
    seq(|ranks|, i requires 0 <= i < |ranks| => Balanced(ranks[i].lens, counts[i], false))
  }

  /** One rank's check of its micro-batches against the token limit. */
  method CheckParts(b: RankBatch, parts: seq<seq<nat>>, cap: nat) returns (valid: bool)
    ensures valid == PartsFit(b, parts, cap)
  {
    for p := 0 to |parts|
      invariant forall q :: 0 <= q < p ==> Load(b.tokens, parts[q]) <= cap
    {
      if Load(b.tokens, parts[p]) > cap {
        return false;
      }
    }
    return true;
  }

  lemma {:induction false} SplittableRank(ranks: seq<RankBatch>, counts: seq<nat>, r: nat)
    requires Splittable(Sizes(ranks), counts) && r < |ranks|
    ensures 0 < counts[r] <= |ranks[r].lens|
  {
    assert SplitError(Sizes(ranks)[r], counts[r]).None?;
  }

  /** Every rank partitions its own batch. */
  method PartitionAll(ranks: seq<RankBatch>, counts: seq<nat>) returns (parts: seq<seq<seq<nat>>>)
    requires RanksSplittable(ranks, counts)
    ensures parts == SplitAll(ranks, counts)
  {
    parts := [];
    for r := 0 to |ranks|
      invariant parts == SplitAll(ranks, counts)[..r]
    {
      var split := PartitionRank(ranks, counts, r);
      parts := parts + [split];
    }
  }

  method PartitionRank(ranks: seq<RankBatch>, counts: seq<nat>, r: nat) returns (split: seq<seq<nat>>)
    requires RanksSplittable(ranks, counts) && r < |ranks|
    ensures split == SplitAll(ranks, counts)[r]
  {
    assert SplitError(|ranks[r].lens|, counts[r]).None?;
    var balanced := BalancedPartitions(ranks[r].lens, counts[r], false);
    split := balanced.value;
  }

  /** Every rank checks its micro-batches; `valid` is the MIN-reduction of the flags. */
  method CheckAll(ranks: seq<RankBatch>, parts: seq<seq<seq<nat>>>, cap: nat) returns (valid: bool)
    requires |parts| == |ranks|
    ensures valid <==> forall r :: 0 <= r < |ranks| ==> PartsFit(ranks[r], parts[r], cap)
  {
    valid := true;
    for r := 0 to |ranks|
      invariant valid <==> forall q :: 0 <= q < r ==> PartsFit(ranks[q], parts[q], cap)
    {
      var ok := CheckParts(ranks[r], parts[r], cap);
      valid := valid && ok;
    }
  }

  /** One round on every rank. */
  method TryRound(ranks: seq<RankBatch>, counts: seq<nat>, cap: nat) returns (valid: bool, parts: seq<seq<seq<nat>>>)
    requires Splittable(Sizes(ranks), counts)
    ensures RanksSplittable(ranks, counts) && parts == SplitAll(ranks, counts)
    ensures valid <==> AllFit(counts, FitsAt(ranks, cap))
  {
    forall r | 0 <= r < |ranks| ensures 0 < counts[r] <= |ranks[r].lens| {
      SplittableRank(ranks, counts, r);
    }
    parts := PartitionAll(ranks, counts);
    valid := CheckAll(ranks, parts, cap);
    forall r: nat | r < |ranks|
      ensures FitsAt(ranks, cap)(r, counts[r]) == PartsFit(ranks[r], parts[r], cap)
    {
    }
  }

  method ComputeOwn(b: RankBatch, cap: nat, minimum: Option<nat>) returns (count: nat)
    requires b.Valid() && b.maxSeqLen <= cap
    ensures count == OwnCount(b, cap, minimum)
  {
    var groups := BestFitDecreasing(b.lens, cap);
    count := |groups.value|;
    if minimum.Some? && minimum.value > count {
      count := minimum.value;
    }
  }

  /** The starting counts, computed from each rank's Best Fit Decreasing groups. */
  method ComputeStart(ranks: seq<RankBatch>, cap: nat, minimum: Option<nat>, divisor: Option<nat>, same: bool)
    returns (counts: seq<nat>)
    requires ValidRanks(ranks) && forall r :: 0 <= r < |ranks| ==> ranks[r].maxSeqLen <= cap
    requires divisor.Some? ==> divisor.value > 0
    ensures counts == StartCounts(ranks, cap, minimum, divisor, same)
  {
    var own: seq<nat> := [];
    for r := 0 to |ranks|
      invariant own == OwnCounts(ranks, cap, minimum)[..r]
    {
      assert ranks[r].Valid();
      var count := ComputeOwn(ranks[r], cap, minimum);
      own := own + [count];
    }
    assert own == OwnCounts(ranks, cap, minimum);
    counts := AgreeAndRound(own, divisor, same);
  }

  /** The MAX-reduction over the ranks and the rounding to the divisor. */
  method AgreeAndRound(own: seq<nat>, divisor: Option<nat>, same: bool) returns (counts: seq<nat>)
    requires divisor.Some? ==> divisor.value > 0
    ensures |counts| == |own|
    ensures forall i :: 0 <= i < |own| ==> counts[i] == Rounded(if same then Longest(own) else own[i], divisor)
  {
    var top := Longest(own);
    counts := [];
    for r := 0 to |own|
      invariant |counts| == r
      invariant forall i :: 0 <= i < r ==> counts[i] == Rounded(if same then top else own[i], divisor)
    {
      counts := counts + [Rounded(if same then top else own[r], divisor)];
    }
  }

  /** The retry loop: every rank adds one micro-batch until a round fits everywhere. */
  method Retry(ranks: seq<RankBatch>, start: seq<nat>, cap: nat) returns (r: Result<seq<nat>>,
        parts: seq<seq<seq<nat>>>)
    requires ranks != [] && |start| == |ranks|
    ensures r == Settle(Sizes(ranks), start, FitsAt(ranks, cap))
    ensures r.Ok? ==> RanksSplittable(ranks, r.value) && parts == SplitAll(ranks, r.value)
  {
    var sizes, counts := Sizes(ranks), start;
    parts := [];
    while true
      invariant |counts| == |ranks|
      invariant Settle(sizes, counts, FitsAt(ranks, cap)) == Settle(sizes, start, FitsAt(ranks, cap))
      decreases if counts[0] <= sizes[0] then sizes[0] + 1 - counts[0] else 0
    {
      var failed := FirstError(sizes, counts);
      if failed.Some? {
        return Err(failed.value), [];
      }
      var valid;
      valid, parts := TryRound(ranks, counts, cap);
      if valid {
        return Ok(counts), parts;
      }
      counts := Incremented(counts);
    }
  }

  /** `get_iterator_dynamic` on all ranks: the partitions of the first round that fits everywhere. */
  method SplitDynamically(ranks: seq<RankBatch>, cap: nat, minimum: Option<nat>, divisor: Option<nat>, same: bool)
    returns (r: Result<seq<nat>>, parts: seq<seq<seq<nat>>>)
    requires ValidRanks(ranks) && (divisor.Some? ==> divisor.value > 0)
    ensures r == if CapTooSmall(ranks, cap) then Err(AssertionError)
                 else Settle(Sizes(ranks), StartCounts(ranks, cap, minimum, divisor, same), FitsAt(ranks, cap))
    ensures r.Ok? ==> RanksSplittable(ranks, r.value) && parts == SplitAll(ranks, r.value)
  {
    for i := 0 to |ranks|
      invariant forall q :: 0 <= q < i ==> ranks[q].maxSeqLen <= cap
    {
      if cap < ranks[i].maxSeqLen {
        return Err(AssertionError), [];
      }
    }
    var counts := ComputeStart(ranks, cap, minimum, divisor, same);
    r, parts := Retry(ranks, counts, cap);
  }

  /** Every micro-batch of a successful run fits, and each rank's micro-batches partition its samples. */
  lemma {:induction false} SplitIsValid(ranks: seq<RankBatch>, counts: seq<nat>, cap: nat, r: nat)
    requires RanksSplittable(ranks, counts) && AllFit(counts, FitsAt(ranks, cap)) && r < |ranks|
    ensures var parts := SplitAll(ranks, counts)[r];
      && |parts| == counts[r]
      && IsPartition(parts, |ranks[r].lens|)
      && (forall p :: 0 <= p < |parts| ==> parts[p] != [] && Load(ranks[r].tokens, parts[p]) <= cap)
      && forall p, q :: 0 <= p < |parts| && 0 <= q < |parts| ==>
           Load(ranks[r].lens, parts[p]) <= Load(ranks[r].lens, parts[q]) + Longest(ranks[r].lens)
  {
    assert FitsAt(ranks, cap)(r, counts[r]);
    BalancedValid(ranks[r].lens, counts[r], false);
  }
}
