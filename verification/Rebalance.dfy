/**
 The data-parallel rebalance: all ranks gather the same samples, pad them to a whole number of
 chunks per rank, partition them into parts of equal size and balanced length, and each takes its
 part. No sample is lost or doubled, and fewer than one chunk per rank is padding.
*/
module Rebalance {
  import opened Sequences
  import opened Outcomes
  import opened KarmarkarKarp
  import opened Partitioner
  import opened StateOrders

  datatype Sample = Sample(prompt: nat, response: nat, content: int)

  /** Copies of the padding sample that make n a multiple of the unit. */
  function PadSize(n: nat, unit: nat): (r: nat)
    requires unit > 0
  {
    if n % unit == 0 then 0 else unit - n % unit
  }

  lemma {:induction false} PadFills(n: nat, unit: nat)
    requires unit > 0
    ensures PadSize(n, unit) < unit && (n + PadSize(n, unit)) % unit == 0
    ensures n > 0 ==> n + PadSize(n, unit) >= unit
  {
    var q, m := n / unit, n % unit;
    assert n == q * unit + m;
    SuccTimes(q, unit);
    if m > 0 {
      DivModUnique(n + PadSize(n, unit), q + 1, 0, unit);
      MulMono(1, q + 1, unit);
    } else if n > 0 {
      MulMono(1, q, unit);
    }
  }

  function Copies(pad: Sample, n: nat): (r: seq<Sample>)
    ensures |r| == n && forall i :: 0 <= i < n ==> r[i] == pad
  {
    seq(n, _ => pad)
  }

  /** All ranks' samples in rank order, then the padding. */
  function Merged(gathered: seq<seq<Sample>>, unit: nat, pad: Sample): (r: seq<Sample>)
    requires unit > 0
    ensures Flatten(gathered) <= r && forall i :: |Flatten(gathered)| <= i < |r| ==> r[i] == pad
  {
    Flatten(gathered) + Copies(pad, PadSize(|Flatten(gathered)|, unit))
  }

  function Lengths(samples: seq<Sample>): (r: seq<nat>)
    ensures |r| == |samples| && forall i :: 0 <= i < |samples| ==> r[i] == samples[i].prompt + samples[i].response
  {
    seq<nat>(|samples|, i requires 0 <= i < |samples| => samples[i].prompt + samples[i].response)
  }

  /** Sizes that the partitioner accepts: at least one sample per rank, and equal parts. */
  lemma {:induction false} MergedDivides(gathered: seq<seq<Sample>>, chunk: nat, pad: Sample)
    requires gathered != [] && chunk > 0 && Flatten(gathered) != []
    ensures |gathered| * chunk > 0
    ensures var size := |Merged(gathered, |gathered| * chunk, pad)|;
      |gathered| <= size && size % |gathered| == 0 && (size / |gathered|) % chunk == 0
  {
    var ranks, n := |gathered|, |Flatten(gathered)|;
    MulMono(1, ranks, chunk);
    PadFills(n, ranks * chunk);
    WholeUnits(n + PadSize(n, ranks * chunk), ranks, chunk, ranks * chunk);
  }

  lemma {:induction false} WholeUnits(size: nat, ranks: nat, chunk: nat, unit: nat)
    requires ranks > 0 && chunk > 0 && unit == ranks * chunk > 0 && size % unit == 0 && size >= unit
    ensures ranks <= size && size % ranks == 0 && (size / ranks) % chunk == 0
  {
    var q := size / unit;
    assert size == q * unit;
    Regroup(q, ranks, chunk);
    var part := q * chunk;
    DivModUnique(size, part, 0, ranks);
    DivModUnique(part, q, 0, chunk);
    MulMono(1, chunk, ranks);
  }

  lemma {:induction false} Regroup(q: int, ranks: int, chunk: int)
    ensures q * (ranks * chunk) == (q * chunk) * ranks
  {
  }

  /** What a rank is given. */
  function RankSamples(gathered: seq<seq<Sample>>, chunk: nat, pad: Sample, rank: nat): seq<Sample>
    requires gathered != [] && chunk > 0 && Flatten(gathered) != [] && rank < |gathered|
  {
    MergedDivides(gathered, chunk, pad);
    var merged := Merged(gathered, |gathered| * chunk, pad);
    var parts := Balanced(Lengths(merged), |gathered|, true);
    BalancedValid(Lengths(merged), |gathered|, true);
    PartInRange(parts, |merged|, rank);
    Gather(merged, parts[rank])
  }

  lemma {:induction false} PartInRange(parts: seq<seq<nat>>, n: nat, p: nat)
    requires IsPartition(parts, n) && p < |parts|
    ensures forall j :: 0 <= j < |parts[p]| ==> parts[p][j] < n
  {
    forall j | 0 <= j < |parts[p]| ensures parts[p][j] < n {
      FlattenMember<nat>(parts, p, parts[p][j]);
      assert parts[p][j] in multiset(Flatten<nat>(parts));
      RangeCount(n, parts[p][j]);
    }
  }

  /** Concatenates the ranks' samples and appends the padding. */
  method MergeAndPad(gathered: seq<seq<Sample>>, unit: nat, pad: Sample) returns (merged: seq<Sample>)
    requires unit > 0
    ensures merged == Merged(gathered, unit, pad)
  {
    merged := [];
    for i := 0 to |gathered|
      invariant merged == Flatten(gathered[..i])
    {
      assert gathered[..i + 1] == gathered[..i] + [gathered[i]];
      FlattenPush(gathered[..i], gathered[i]);
      merged := merged + gathered[i];
    }
    assert gathered[..|gathered|] == gathered;
    merged := merged + Copies(pad, PadSize(|merged|, unit));
  }

  lemma {:induction false} NothingToMerge(gathered: seq<seq<Sample>>, unit: nat, pad: Sample)
    requires unit > 0 && Flatten(gathered) == []
    ensures Merged(gathered, unit, pad) == []
  {
    DivModUnique(0, 0, 0, unit);
  }

  /** `from_rollout_batches_dynamic` for one rank, from the batches that all ranks have gathered. */
  method TakeShare(gathered: seq<seq<Sample>>, chunk: nat, pad: Sample, rank: nat) returns (r: Result<seq<Sample>>)
    requires rank < |gathered|
    ensures r == if chunk == 0 then Err(ZeroDivisionError)
                 else if Flatten(gathered) == [] then Err(AssertionError)
                 else Ok(RankSamples(gathered, chunk, pad, rank))
  {
    var unit := |gathered| * chunk;
    if chunk == 0 {
      return Err(ZeroDivisionError);
    }
    MulMono(1, |gathered|, chunk);
    var merged := MergeAndPad(gathered, unit, pad);
    var parts := BalancedPartitions(Lengths(merged), |gathered|, true);
    if Flatten(gathered) == [] {
      NothingToMerge(gathered, unit, pad);
    } else {
      MergedDivides(gathered, chunk, pad);
      BalancedValid(Lengths(merged), |gathered|, true);
    }
    if parts.Err? {
      return Err(parts.error);
    }
    PartInRange(parts.value, |merged|, rank);
    r := Ok(Gather(merged, parts.value[rank]));
  }

  // ---------------------------------------------------------------- nothing is lost

  function GatherAll(data: seq<Sample>, parts: seq<seq<nat>>): (r: seq<seq<Sample>>)
    requires forall p, j :: 0 <= p < |parts| && 0 <= j < |parts[p]| ==> parts[p][j] < |data|
    ensures |r| == |parts| && forall p :: 0 <= p < |parts| ==> r[p] == Gather(data, parts[p])
  {
    seq(|parts|, p requires 0 <= p < |parts| => Gather(data, parts[p]))
  }

  function At(data: seq<Sample>, other: Sample): nat -> Sample {
    (i: nat) => if i < |data| then data[i] else other
  }

  lemma {:induction false} FlattenGather(data: seq<Sample>, parts: seq<seq<nat>>, other: Sample)
    requires forall p, j :: 0 <= p < |parts| && 0 <= j < |parts[p]| ==> parts[p][j] < |data|
    ensures Flatten(GatherAll(data, parts)) == Map(At(data, other), Flatten<nat>(parts))
  {
    if parts != [] {
      var rest := parts[1..];
      assert forall p :: 0 <= p < |rest| ==> rest[p] == parts[p + 1];
      FlattenGather(data, rest, other);
      assert GatherAll(data, parts)[1..] == GatherAll(data, rest);
      assert Gather(data, parts[0]) == Map(At(data, other), parts[0]);
      assert Map(At(data, other), parts[0] + Flatten<nat>(rest))
        == Map(At(data, other), parts[0]) + Map(At(data, other), Flatten<nat>(rest));
    }
  }

  /** Gathering by a partition keeps the samples. */
  lemma {:induction false} GatherKeeps(data: seq<Sample>, parts: seq<seq<nat>>, other: Sample)
    requires IsPartition(parts, |data|)
    requires forall p, j :: 0 <= p < |parts| && 0 <= j < |parts[p]| ==> parts[p][j] < |data|
    ensures multiset(Flatten(GatherAll(data, parts))) == multiset(data)
  {
    FlattenGather(data, parts, other);
    PermutationMap(At(data, other), Flatten<nat>(parts), Range(|data|));
    assert Map(At(data, other), Range(|data|)) == data;
  }

  /** All ranks' shares, in rank order. */
  function Shares(gathered: seq<seq<Sample>>, chunk: nat, pad: Sample): (r: seq<seq<Sample>>)
    requires gathered != [] && chunk > 0 && Flatten(gathered) != []
    ensures |r| == |gathered|
    ensures forall rank :: 0 <= rank < |gathered| ==> r[rank] == RankSamples(gathered, chunk, pad, rank)
  {
    seq(|gathered|, rank requires 0 <= rank < |gathered| => RankSamples(gathered, chunk, pad, rank))
  }

  /** Together the ranks hold every gathered sample once, and fewer than one chunk per rank of padding. */
  lemma {:induction false} SamplesConserved(gathered: seq<seq<Sample>>, chunk: nat, pad: Sample)
    requires gathered != [] && chunk > 0 && Flatten(gathered) != []
    ensures |gathered| * chunk > 0
    ensures var padding := PadSize(|Flatten(gathered)|, |gathered| * chunk);
      && padding < |gathered| * chunk
      && multiset(Flatten(Shares(gathered, chunk, pad))) == multiset(Flatten(gathered)) + multiset(Copies(pad, padding))
  {
    MergedDivides(gathered, chunk, pad);
    PadFills(|Flatten(gathered)|, |gathered| * chunk);
    var merged := Merged(gathered, |gathered| * chunk, pad);
    var parts := Balanced(Lengths(merged), |gathered|, true);
    BalancedValid(Lengths(merged), |gathered|, true);
    forall p: nat | p < |parts| ensures forall j :: 0 <= j < |parts[p]| ==> parts[p][j] < |merged| {
      PartInRange(parts, |merged|, p);
    }
    GatherKeeps(merged, parts, pad);
    assert Shares(gathered, chunk, pad) == GatherAll(merged, parts);
  }

  /** All ranks get equally many samples, a whole number of chunks, and balanced total lengths. */
  lemma {:induction false} SharesAlike(gathered: seq<seq<Sample>>, chunk: nat, pad: Sample, rank: nat, other: nat)
    requires gathered != [] && chunk > 0 && Flatten(gathered) != [] && rank < |gathered| && other < |gathered|
    ensures |RankSamples(gathered, chunk, pad, rank)| == |RankSamples(gathered, chunk, pad, other)|
    ensures |RankSamples(gathered, chunk, pad, rank)| % chunk == 0
    ensures |gathered| * chunk > 0
    ensures var merged := Merged(gathered, |gathered| * chunk, pad);
      |gathered| <= |merged| && |merged| % |gathered| == 0
      && Load(Lengths(merged), Balanced(Lengths(merged), |gathered|, true)[rank])
         <= Load(Lengths(merged), Balanced(Lengths(merged), |gathered|, true)[other])
            + SpreadBound(Lengths(merged), |gathered|, true)
  {
    MergedDivides(gathered, chunk, pad);
    BalancedValid(Lengths(Merged(gathered, |gathered| * chunk, pad)), |gathered|, true);
  }

  /** The prompt and response tokens of the samples. */
  function TokensIn(samples: seq<Sample>): nat {
    if samples == [] then 0 else samples[0].prompt + samples[0].response + TokensIn(samples[1..])
  }

  lemma {:induction false} TokensAreLoad(data: seq<Sample>, part: seq<nat>)
    requires forall j :: 0 <= j < |part| ==> part[j] < |data|
    ensures TokensIn(Gather(data, part)) == Load(Lengths(data), part)
  {
    if part != [] {
      TokensAreLoad(data, part[1..]);
      assert Gather(data, part)[1..] == Gather(data, part[1..]);
    }
  }

  /** The tokens of two ranks differ by at most those of the longest sample, and never rise from rank to rank. */
  lemma {:induction false} TokensWithinOneSample(gathered: seq<seq<Sample>>, chunk: nat, pad: Sample, rank: nat,
        other: nat, most: nat)
    requires gathered != [] && chunk > 0 && Flatten(gathered) != [] && rank < |gathered| && other < |gathered|
    requires pad.prompt + pad.response <= most
    requires forall s :: s in Flatten(gathered) ==> s.prompt + s.response <= most
    ensures TokensIn(RankSamples(gathered, chunk, pad, rank))
      <= TokensIn(RankSamples(gathered, chunk, pad, other)) + most
    ensures rank < other ==>
      TokensIn(RankSamples(gathered, chunk, pad, rank)) >= TokensIn(RankSamples(gathered, chunk, pad, other))
  {
    MergedDivides(gathered, chunk, pad);
    var merged := Merged(gathered, |gathered| * chunk, pad);
    var lens, k := Lengths(merged), |gathered|;
    var parts := Balanced(lens, k, true);
    BalancedValid(lens, k, true);
    PartInRange(parts, |merged|, rank);
    PartInRange(parts, |merged|, other);
    TokensAreLoad(merged, parts[rank]);
    TokensAreLoad(merged, parts[other]);
    forall i | 0 <= i < |merged| ensures lens[i] <= most {
      assert i < |Flatten(gathered)| ==> merged[i] in Flatten(gathered);
    }
    SpreadAtMost(lens, k, most);
    if rank < other {
      PartsByLoad(lens, k, true, rank, other);
    }
  }
}
