/**
 Rank-to-rank batch sharding: two worker groups split the same batch into contiguous shards, and
 the mapper tells each rank with which ranks of the other group it exchanges how many rows.
*/
module CommMapping {
  import opened Sequences
  import opened Outcomes

  datatype Share = Share(rank: nat, size: nat)

  // ---------------------------------------------------------------- overlaps of shards

  /** x moved into the interval from lo to hi. */
  function Clip(x: int, lo: nat, hi: nat): (r: nat)
    requires lo <= hi
    ensures lo <= r <= hi
  {
    if x < lo then lo else if x > hi then hi else x
  }

  /** How many rows of lo..hi belong to the shard of the given rank, when shards hold q rows each. */
  function Overlap(lo: nat, hi: nat, q: nat, rank: nat): nat
    requires lo <= hi
  {
    MulMono(rank, rank + 1, q);
    Clip((rank + 1) * q, lo, hi) - Clip(rank * q, lo, hi)
  }

  /** The ranks from..n that share rows with lo..hi, in rank order, with the shared row counts. */
  function Shares(lo: nat, hi: nat, q: nat, from: nat, n: nat): seq<Share>
    requires lo <= hi && from <= n
    decreases n - from
  {
    if from == n then []
    else
      var size := Overlap(lo, hi, q, from);
      (if size > 0 then [Share(from, size)] else []) + Shares(lo, hi, q, from + 1, n)
  }

  /** The shares of rank `rank` of a group of `own` ranks with the ranks of a group of `other`. */
  function SharesOf(batch: nat, own: nat, other: nat, rank: nat): seq<Share>
    requires own > 0 && other > 0
  {
    MulMono(rank, rank + 1, batch / own);
    Shares(rank * (batch / own), (rank + 1) * (batch / own), batch / other, 0, other)
  }

  function TotalSize(s: seq<Share>): nat {
    if s == [] then 0 else s[0].size + TotalSize(s[1..])
  }

  /** The row counts add up to the rows of lo..hi that the ranks from..n cover. */
  lemma {:induction false} SharesTotal(lo: nat, hi: nat, q: nat, from: nat, n: nat)
    requires lo <= hi && from <= n
    ensures from * q <= n * q
    ensures TotalSize(Shares(lo, hi, q, from, n)) == Clip(n * q, lo, hi) - Clip(from * q, lo, hi)
    decreases n - from
  {
    MulMono(from, n, q);
    if from < n {
      SharesTotal(lo, hi, q, from + 1, n);
      var rest := Shares(lo, hi, q, from + 1, n);
      assert ([Share(from, Overlap(lo, hi, q, from))] + rest)[1..] == rest;
      assert [] + rest == rest;
    }
  }

  /** Two shards overlap by the same count from either side. */
  lemma {:induction false} OverlapSymmetric(a: nat, p: nat, b: nat, q: nat)
    ensures a * p <= (a + 1) * p && b * q <= (b + 1) * q
    ensures Overlap(a * p, (a + 1) * p, q, b) == Overlap(b * q, (b + 1) * q, p, a)
  {
    MulMono(a, a + 1, p);
    MulMono(b, b + 1, q);
  }

  lemma {:induction false} Listed(lo: nat, hi: nat, q: nat, from: nat, n: nat, d: nat, size: nat)
    requires lo <= hi && from <= n
    ensures Share(d, size) in Shares(lo, hi, q, from, n)
      <==> from <= d < n && size > 0 && size == Overlap(lo, hi, q, d)
    decreases n - from
  {
    if from < n {
      Listed(lo, hi, q, from + 1, n, d, size);
      HeadOrRest(Share(d, size), from, Overlap(lo, hi, q, from), Shares(lo, hi, q, from + 1, n));
    }
  }

  lemma {:induction false} HeadOrRest(x: Share, rank: nat, size: nat, rest: seq<Share>)
    ensures x in (if size > 0 then [Share(rank, size)] else []) + rest
      <==> (size > 0 && x == Share(rank, size)) || x in rest
  {
  }

  lemma {:induction false} OverlapIs(lo: nat, hi: nat, a: nat, b: nat)
    requires lo <= hi && a <= b
    ensures Clip(b, lo, hi) - Clip(a, lo, hi) == Max(0, Min(hi, b) - Max(lo, a))
  {
  }

  lemma {:induction false} FromFirst(lo: nat, hi: nat, q: nat, from: nat, n: nat, j: nat)
    requires lo <= hi && from <= n && j < |Shares(lo, hi, q, from, n)|
    ensures Shares(lo, hi, q, from, n)[j].rank >= from
    decreases n - from
  {
    var first := if Overlap(lo, hi, q, from) > 0 then 1 else 0;
    if j >= first {
      FromFirst(lo, hi, q, from + 1, n, j - first);
    }
  }

  lemma {:induction false} RanksRise(lo: nat, hi: nat, q: nat, from: nat, n: nat, j: nat, k: nat)
    requires lo <= hi && from <= n && j < k < |Shares(lo, hi, q, from, n)|
    ensures Shares(lo, hi, q, from, n)[j].rank < Shares(lo, hi, q, from, n)[k].rank
    decreases n - from
  {
    var first := if Overlap(lo, hi, q, from) > 0 then 1 else 0;
    if j >= first {
      RanksRise(lo, hi, q, from + 1, n, j - first, k - first);
    } else {
      FromFirst(lo, hi, q, from + 1, n, k - 1);
    }
  }

  lemma {:induction false} CommonRows(lo: nat, hi: nat, q: nat, n: nat, d: nat, size: nat)
    requires lo <= hi
    ensures Share(d, size) in Shares(lo, hi, q, 0, n)
      <==> d < n && size > 0 && size == Min(hi, (d + 1) * q) - Max(lo, d * q)
  {
    Listed(lo, hi, q, 0, n, d, size);
    OverlapAt(lo, hi, q, d);
  }

  lemma {:induction false} OverlapAt(lo: nat, hi: nat, q: nat, d: nat)
    requires lo <= hi
    ensures Overlap(lo, hi, q, d) == Max(0, Min(hi, (d + 1) * q) - Max(lo, d * q))
  {
    var a, b := d * q, (d + 1) * q;
    MulMono(d, d + 1, q);
    OverlapIs(lo, hi, a, b);
  }

  lemma {:induction false} AllRise(lo: nat, hi: nat, q: nat, n: nat)
    requires lo <= hi
    ensures var shares := Shares(lo, hi, q, 0, n);
      forall j, k :: 0 <= j < k < |shares| ==> shares[j].rank < shares[k].rank
  {
    var shares := Shares(lo, hi, q, 0, n);
    forall j: nat, k: nat | j < k < |shares| ensures shares[j].rank < shares[k].rank {
      RanksRise(lo, hi, q, 0, n, j, k);
    }
  }

  /**
   A share is listed exactly if the two ranks have rows in common, with as many rows as they have in
   common, and the other ranks are listed in rising order.
  */
  lemma {:induction false} ShareListed(batch: nat, own: nat, other: nat, rank: nat, d: nat, size: nat)
    requires own > 0 && other > 0
    ensures var p, q := batch / own, batch / other;
      Share(d, size) in SharesOf(batch, own, other, rank)
      <==> d < other && size > 0 && size == Min((rank + 1) * p, (d + 1) * q) - Max(rank * p, d * q)
    ensures var shares := SharesOf(batch, own, other, rank);
      forall j, k :: 0 <= j < k < |shares| ==> shares[j].rank < shares[k].rank
  {
    var p, q := batch / own, batch / other;
    MulMono(rank, rank + 1, p);
    CommonRows(rank * p, (rank + 1) * p, q, other, d, size);
    AllRise(rank * p, (rank + 1) * p, q, other);
  }

  // ---------------------------------------------------------------- the loop of get_dst_ranks

  /** Ranks whose shards end at or before lo take no part. */
  lemma {:induction false} SkipRanks(lo: nat, hi: nat, q: nat, from: nat, upto: nat, n: nat)
    requires lo <= hi && from <= upto <= n && upto * q <= lo
    ensures Shares(lo, hi, q, from, n) == Shares(lo, hi, q, upto, n)
    decreases upto - from
  {
    if from < upto {
      MulMono(from + 1, upto, q);
      MulMono(from, from + 1, q);
      SkipRanks(lo, hi, q, from + 1, upto, n);
      assert Overlap(lo, hi, q, from) == 0;
      var rest := Shares(lo, hi, q, from + 1, n);
      assert [] + rest == rest;
    }
  }

  /** Later ranks do not see rows before their own shards. */
  lemma {:induction false} LaterRanks(lo: nat, lo': nat, hi: nat, q: nat, from: nat, n: nat)
    requires lo <= lo' <= hi && from <= n && lo' <= from * q
    ensures Shares(lo, hi, q, from, n) == Shares(lo', hi, q, from, n)
    decreases n - from
  {
    if from < n {
      MulMono(from, from + 1, q);
      LaterRanks(lo, lo', hi, q, from + 1, n);
    }
  }

  lemma {:induction false} NoRowsNoShares(lo: nat, q: nat, from: nat, n: nat)
    requires from <= n
    ensures Shares(lo, lo, q, from, n) == []
    decreases n - from
  {
    if from < n {
      NoRowsNoShares(lo, q, from + 1, n);
    }
  }

  /** The rank that owns row `begin` takes as many rows as its shard and the sender have left. */
  lemma {:induction false} NextShare(begin: nat, hi: nat, q: nat, n: nat, d: nat, size: nat)
    requires q > 0 && begin < hi <= n * q
    requires d == begin / q && size == Min((d + 1) * q - begin, hi - begin)
    ensures size > 0 && begin + size <= hi
    ensures Shares(begin, hi, q, 0, n) == [Share(d, size)] + Shares(begin + size, hi, q, 0, n)
  {
    OwnerBounds(begin, q, n, d);
    SkipRanks(begin, hi, q, 0, d, n);
    assert Overlap(begin, hi, q, d) == size;
    LaterRanks(begin, begin + size, hi, q, d + 1, n);
    if begin + size == hi {
      NoRowsNoShares(hi, q, 0, n);
      NoRowsNoShares(hi, q, d + 1, n);
    } else {
      SkipRanks(begin + size, hi, q, 0, d + 1, n);
    }
  }

  lemma {:induction false} NextShareAfter(shares: seq<Share>, begin: nat, hi: nat, q: nat, n: nat, d: nat, size: nat)
    requires q > 0 && begin < hi <= n * q
    requires d == begin / q && size == Min((d + 1) * q - begin, hi - begin)
    ensures size > 0 && begin + size <= hi
    ensures shares + Shares(begin, hi, q, 0, n) == shares + [Share(d, size)] + Shares(begin + size, hi, q, 0, n)
  {
    NextShare(begin, hi, q, n, d, size);
  }

  lemma {:induction false} OwnerBounds(row: nat, q: nat, n: nat, d: nat)
    requires q > 0 && row < n * q && d == row / q
    ensures d < n && d * q <= row < (d + 1) * q
  {
    assert row == d * q + row % q;
    if n <= d {
      MulMono(n, d, q);
    }
  }

  /** What the program asserts of its arguments before it divides the batch. */
  ghost predicate Divisible(batch: nat, src: nat, dst: nat, rank: nat) {
    src > 0 && dst > 0 && batch % src == 0 && batch % dst == 0 && rank < src
  }

  lemma {:induction false} ShardBounds(batch: nat, world: nat, rank: nat)
    requires world > 0 && batch % world == 0 && rank < world
    ensures world * (batch / world) == batch
    ensures rank * (batch / world) <= (rank + 1) * (batch / world) <= batch
  {
    MulMono(rank, rank + 1, batch / world);
    MulMono(rank + 1, world, batch / world);
  }

  /** `get_dst_ranks`. */
  method GetDstRanks(batch: nat, src: nat, dst: nat, rank: nat) returns (r: Result<seq<Share>>)
    ensures r == if src == 0 || (batch % src == 0 && dst == 0) then Err(ZeroDivisionError)
                 else if !Divisible(batch, src, dst, rank) then Err(AssertionError)
                 else Ok(SharesOf(batch, src, dst, rank))
  {
    if src == 0 {
      return Err(ZeroDivisionError);
    }
    if batch % src != 0 {
      return Err(AssertionError);
    }
    if dst == 0 {
      return Err(ZeroDivisionError);
    }
    if batch % dst != 0 || rank >= src {
      return Err(AssertionError);
    }
    ShardBounds(batch, src, rank);
    ShardBounds(batch, dst, 0);
    var perSrc := batch / src;
    var shares := WalkShards(rank * perSrc, (rank + 1) * perSrc, batch / dst, dst);
    r := Ok(shares);
  }

  method NextShard(shares: seq<Share>, begin: nat, hi: nat, q: nat, ghost n: nat) returns (d: nat, size: nat)
    requires begin < hi <= n * q
    ensures size > 0 && begin + size <= hi
    ensures shares + Shares(begin, hi, q, 0, n) == shares + [Share(d, size)] + Shares(begin + size, hi, q, 0, n)
  {
    NonZeroShard(begin, q, n);
    d := begin / q;
    SuccTimes(d, q);
    OwnerBounds(begin, q, n, d);
    size := Min(q - (begin - d * q), hi - begin);
    NextShareAfter(shares, begin, hi, q, n, d, size);
  }

  /** Walks the rows lo..hi from shard to shard of the other group. */
  method WalkShards(lo: nat, hi: nat, q: nat, ghost n: nat) returns (shares: seq<Share>)
    requires lo <= hi <= n * q
    ensures shares == Shares(lo, hi, q, 0, n)
  {
    shares := [];
    var begin := lo;
    while begin < hi
      invariant lo <= begin <= hi
      invariant shares + Shares(begin, hi, q, 0, n) == Shares(lo, hi, q, 0, n)
    {
      var d, size := NextShard(shares, begin, hi, q, n);
      shares := shares + [Share(d, size)];
      begin := begin + size;
    }
    NoRowsNoShares(hi, q, 0, n);
  }

  lemma {:induction false} NonZeroShard(row: nat, q: nat, n: nat)
    requires row < n * q
    ensures q > 0
  {
  }

  // ---------------------------------------------------------------- the loop of get_src_ranks

  /** The rows that a sender's shares address to rank d, as the receiver's share with that sender. */
  function AddressedTo(shares: seq<Share>, d: nat, sender: nat): seq<Share> {
    if shares == [] then []
    else (if shares[0].rank == d then [Share(sender, shares[0].size)] else []) + AddressedTo(shares[1..], d, sender)
  }

  lemma {:induction false} AddressedShare(lo: nat, hi: nat, q: nat, from: nat, n: nat, d: nat, sender: nat)
    requires lo <= hi && from <= n && d < n
    ensures AddressedTo(Shares(lo, hi, q, from, n), d, sender) ==
      if from <= d && Overlap(lo, hi, q, d) > 0 then [Share(sender, Overlap(lo, hi, q, d))] else []
    decreases n - from
  {
    if from < n {
      AddressedShare(lo, hi, q, from + 1, n, d, sender);
      AddressedFirst(from, Overlap(lo, hi, q, from), Shares(lo, hi, q, from + 1, n), d, sender);
    }
  }

  lemma {:induction false} AddressedFirst(rank: nat, size: nat, rest: seq<Share>, d: nat, sender: nat)
    ensures AddressedTo((if size > 0 then [Share(rank, size)] else []) + rest, d, sender)
      == (if size > 0 && rank == d then [Share(sender, size)] else []) + AddressedTo(rest, d, sender)
  {
    if size > 0 {
      assert ([Share(rank, size)] + rest)[1..] == rest;
    } else {
      assert [] + rest == rest;
    }
  }

  lemma {:induction false} SharesSnoc(lo: nat, hi: nat, q: nat, from: nat, n: nat)
    requires lo <= hi && from <= n
    ensures Shares(lo, hi, q, from, n + 1) ==
      Shares(lo, hi, q, from, n) + if Overlap(lo, hi, q, n) > 0 then [Share(n, Overlap(lo, hi, q, n))] else []
    decreases n - from
  {
    if from < n {
      SharesSnoc(lo, hi, q, from + 1, n);
    } else {
      assert Shares(lo, hi, q, n + 1, n + 1) == [];
    }
  }

  /** What sender s addresses to receiver d is what receiver d's own shares say about sender s. */
  lemma {:induction false} AddressedByDuality(batch: nat, src: nat, dst: nat, s: nat, d: nat)
    requires Divisible(batch, src, dst, s) && d < dst
    ensures d * (batch / dst) <= (d + 1) * (batch / dst)
    ensures var overlap := Overlap(d * (batch / dst), (d + 1) * (batch / dst), batch / src, s);
      AddressedTo(SharesOf(batch, src, dst, s), d, s) == if overlap > 0 then [Share(s, overlap)] else []
  {
    OverlapSymmetric(s, batch / src, d, batch / dst);
    AddressedShare(s * (batch / src), (s + 1) * (batch / src), batch / dst, 0, dst, d, s);
  }

  /** The receive sizes add up to one destination shard, so the final assertion never fires. */
  lemma {:induction false} ReceiveSize(batch: nat, src: nat, dst: nat, d: nat)
    requires Divisible(batch, dst, src, d)
    ensures TotalSize(SharesOf(batch, dst, src, d)) == batch / dst
  {
    var q := batch / dst;
    ShardBounds(batch, dst, d);
    ShardBounds(batch, src, 0);
    SharesTotal(d * q, (d + 1) * q, batch / src, 0, src);
    SuccTimes(d, q);
  }

  /** `get_src_ranks`: the two directions are duals of one another. */
  method GetSrcRanks(batch: nat, src: nat, dst: nat, rank: nat) returns (r: Result<seq<Share>>)
    ensures r == if src == 0 || (batch % src == 0 && dst == 0) then Err(ZeroDivisionError)
                 else if !Divisible(batch, dst, src, rank) then Err(AssertionError)
                 else Ok(SharesOf(batch, dst, src, rank))
  {
    if src == 0 {
      return Err(ZeroDivisionError);
    }
    if batch % src != 0 {
      return Err(AssertionError);
    }
    if dst == 0 {
      return Err(ZeroDivisionError);
    }
    if batch % dst != 0 || rank >= dst {
      return Err(AssertionError);
    }
    var shares := CollectShares(batch, src, dst, rank);
    ReceiveSize(batch, src, dst, rank);
    if TotalSize(shares) != batch / dst {
      return Err(AssertionError);
    }
    r := Ok(shares);
  }

  method CollectShares(batch: nat, src: nat, dst: nat, rank: nat) returns (shares: seq<Share>)
    requires Divisible(batch, dst, src, rank)
    ensures shares == SharesOf(batch, dst, src, rank)
  {
    ghost var q := batch / dst;
    ShardBounds(batch, dst, rank);
    shares := [];
    for s := 0 to src
      invariant shares == Shares(rank * q, (rank + 1) * q, batch / src, 0, s)
    {
      var sent := GetDstRanks(batch, src, dst, s);
      AddressedByDuality(batch, src, dst, s, rank);
      SharesSnoc(rank * q, (rank + 1) * q, batch / src, 0, s);
      shares := AppendAddressed(shares, sent.value, rank, s);
    }
  }

  method AppendAddressed(before: seq<Share>, sent: seq<Share>, rank: nat, s: nat) returns (shares: seq<Share>)
    ensures shares == before + AddressedTo(sent, rank, s)
  {
    shares := before;
    for i := 0 to |sent|
      invariant shares + AddressedTo(sent[i..], rank, s) == before + AddressedTo(sent, rank, s)
    {
      assert sent[i..][1..] == sent[i + 1..];
      if sent[i].rank == rank {
        shares := shares + [Share(s, sent[i].size)];
      }
    }
  }

  // ---------------------------------------------------------------- the exchanged rows

  /** A sender's shard cut into the pieces of its shares, in order, each with its receiver. */
  function CutPieces<T>(rows: seq<T>, shares: seq<Share>): seq<(nat, seq<T>)>
    requires TotalSize(shares) <= |rows|
  {
    if shares == [] then []
    else [(shares[0].rank, rows[..shares[0].size])] + CutPieces(rows[shares[0].size..], shares[1..])
  }

  /** The rows of the pieces that are addressed to rank d. */
  function PiecesFor<T>(pieces: seq<(nat, seq<T>)>, d: nat): seq<T> {
    if pieces == [] then []
    else (if pieces[0].0 == d then pieces[0].1 else []) + PiecesFor(pieces[1..], d)
  }

  /** Cutting the rows lo..hi sends rank d exactly the rows of its shard among them. */
  lemma {:induction false} CutForRank<T>(data: seq<T>, lo: nat, hi: nat, q: nat, from: nat, n: nat, d: nat, own: seq<T>)
    requires lo <= hi <= n * q && hi <= |data| && from <= n && d < n && d * q <= (d + 1) * q
    requires own == data[Clip(d * q, lo, hi)..Clip((d + 1) * q, lo, hi)]
    ensures TotalSize(Shares(lo, hi, q, from, n)) == hi - Clip(from * q, lo, hi)
    ensures PiecesFor(CutPieces(data[Clip(from * q, lo, hi)..hi], Shares(lo, hi, q, from, n)), d) ==
      if from <= d then own else []
    decreases n - from
  {
    SharesLeft(lo, hi, q, from, n);
    if from < n {
      CutForRank(data, lo, hi, q, from + 1, n, d, own);
      MulMono(from, from + 1, q);
      CutStep(data, lo, hi, q, from, n, d, own, Clip(from * q, lo, hi), Clip((from + 1) * q, lo, hi));
      AtOrAfter(from, d, own);
    }
  }

  lemma {:induction false} SharesLeft(lo: nat, hi: nat, q: nat, from: nat, n: nat)
    requires lo <= hi <= n * q && from <= n
    ensures TotalSize(Shares(lo, hi, q, from, n)) == hi - Clip(from * q, lo, hi)
  {
    MulMono(from, n, q);
    SharesTotal(lo, hi, q, from, n);
  }

  lemma {:induction false} AtOrAfter<T>(from: nat, d: nat, rows: seq<T>)
    ensures (if from == d then rows else []) + (if from + 1 <= d then rows else []) == if from <= d then rows else []
  {
  }

  lemma {:induction false} CutHead<T>(data: seq<T>, a: nat, b: nat, hi: nat, rank: nat, rest: seq<Share>, d: nat)
    requires a < b <= hi <= |data| && TotalSize(rest) == hi - b
    ensures TotalSize([Share(rank, b - a)] + rest) == hi - a
    ensures PiecesFor(CutPieces(data[a..hi], [Share(rank, b - a)] + rest), d) ==
      (if rank == d then data[a..b] else []) + PiecesFor(CutPieces(data[b..hi], rest), d)
  {
    var shares := [Share(rank, b - a)] + rest;
    assert shares[1..] == rest;
    assert data[a..hi][..b - a] == data[a..b] && data[a..hi][b - a..] == data[b..hi];
    assert CutPieces(data[a..hi], shares)[1..] == CutPieces(data[b..hi], rest);
  }

  lemma {:induction false} CutStep<T>(data: seq<T>, lo: nat, hi: nat, q: nat, from: nat, n: nat, d: nat, own: seq<T>,
        a: nat, b: nat)
    requires lo <= hi <= |data| && from < n
    requires a == Clip(from * q, lo, hi) && b == Clip((from + 1) * q, lo, hi)
    requires a <= b && Overlap(lo, hi, q, from) == b - a
    requires from == d ==> own == data[a..b]
    requires TotalSize(Shares(lo, hi, q, from, n)) == hi - a && TotalSize(Shares(lo, hi, q, from + 1, n)) == hi - b
    ensures PiecesFor(CutPieces(data[a..hi], Shares(lo, hi, q, from, n)), d) ==
      (if from == d then own else []) + PiecesFor(CutPieces(data[b..hi], Shares(lo, hi, q, from + 1, n)), d)
  {
    var rest := Shares(lo, hi, q, from + 1, n);
    if b > a {
      CutHead(data, a, b, hi, from, rest, d);
    } else {
      assert [] + rest == rest;
      assert from == d ==> own == [];
    }
  }

  function Shard<T>(data: seq<T>, world: nat, rank: nat): seq<T>
    requires world > 0 && |data| % world == 0 && rank < world
  {
    ShardBounds(|data|, world, rank);
    data[rank * (|data| / world)..(rank + 1) * (|data| / world)]
  }

  /** What rank d receives from sender s. */
  function Sent<T>(data: seq<T>, src: nat, dst: nat, s: nat, d: nat): seq<T>
    requires Divisible(|data|, src, dst, s) && d < dst
  {
    SentSize(|data|, src, dst, s);
    PiecesFor<T>(CutPieces<T>(Shard<T>(data, src, s), SharesOf(|data|, src, dst, s)), d)
  }

  lemma {:induction false} SentSize(batch: nat, src: nat, dst: nat, s: nat)
    requires Divisible(batch, src, dst, s)
    ensures s * (batch / src) <= (s + 1) * (batch / src) <= batch
    ensures TotalSize(SharesOf(batch, src, dst, s)) == (s + 1) * (batch / src) - s * (batch / src)
  {
    ShardBounds(batch, src, s);
    ShardBounds(batch, dst, 0);
    SharesTotal(s * (batch / src), (s + 1) * (batch / src), batch / dst, 0, dst);
  }

  /** What rank d has received from the first `senders` senders, in sender order. */
  function Received<T>(data: seq<T>, src: nat, dst: nat, d: nat, senders: nat): seq<T>
    requires src > 0 && dst > 0 && |data| % src == 0 && |data| % dst == 0 && d < dst && senders <= src
  {
    if senders == 0 then []
    else Received<T>(data, src, dst, d, senders - 1) + Sent<T>(data, src, dst, senders - 1, d)
  }

  lemma {:induction false} SentRows<T>(data: seq<T>, src: nat, dst: nat, s: nat, d: nat, p: nat, q: nat)
    requires Divisible(|data|, src, dst, s) && d < dst && p == |data| / src && q == |data| / dst
    ensures s * p <= (s + 1) * p <= |data|
    ensures Sent<T>(data, src, dst, s, d)
      == data[Clip(d * q, s * p, (s + 1) * p)..Clip((d + 1) * q, s * p, (s + 1) * p)]
  {
    ShardBounds(|data|, src, s);
    ShardBounds(|data|, dst, 0);
    MulMono(d, d + 1, q);
    var lo, hi := s * p, (s + 1) * p;
    CutForRank<T>(data, lo, hi, q, 0, dst, d, data[Clip(d * q, lo, hi)..Clip((d + 1) * q, lo, hi)]);
  }

  lemma {:induction false} AppendRows<T>(data: seq<T>, lo: nat, hi: nat, a: nat, b: nat)
    requires lo <= hi <= |data| && a <= b <= |data|
    ensures data[lo..Clip(a, lo, hi)] + data[Clip(lo, a, b)..Clip(hi, a, b)] == data[lo..Clip(b, lo, hi)]
  {
  }

  lemma {:induction false} ReceivedStep<T>(data: seq<T>, src: nat, dst: nat, d: nat, s: nat, lo: nat, hi: nat, a: nat,
        b: nat)
    requires Divisible(|data|, dst, src, d) && s < src && lo <= hi <= |data| && a <= b <= |data|
    requires Received<T>(data, src, dst, d, s) == data[lo..Clip(a, lo, hi)]
    requires Sent<T>(data, src, dst, s, d) == data[Clip(lo, a, b)..Clip(hi, a, b)]
    ensures Received<T>(data, src, dst, d, s + 1) == data[lo..Clip(b, lo, hi)]
  {
    AppendRows<T>(data, lo, hi, a, b);
  }

  lemma {:induction false} ReceivedPrefix<T>(data: seq<T>, src: nat, dst: nat, d: nat, senders: nat, lo: nat, hi: nat)
    requires Divisible(|data|, dst, src, d) && senders <= src
    requires lo == d * (|data| / dst) && hi == (d + 1) * (|data| / dst) && lo <= hi <= |data|
    ensures Received<T>(data, src, dst, d, senders) == data[lo..Clip(senders * (|data| / src), lo, hi)]
  {
    var p := |data| / src;
    if senders == 0 {
      assert Clip(0, lo, hi) == lo;
    } else {
      var s := senders - 1;
      ReceivedPrefix<T>(data, src, dst, d, s, lo, hi);
      ShardBounds(|data|, src, s);
      var a, b := s * p, (s + 1) * p;
      SentIn<T>(data, src, dst, s, d, lo, hi, a, b);
      ReceivedStep<T>(data, src, dst, d, s, lo, hi, a, b);
    }
  }

  lemma {:induction false} SentIn<T>(data: seq<T>, src: nat, dst: nat, s: nat, d: nat, lo: nat, hi: nat, a: nat, b: nat)
    requires Divisible(|data|, src, dst, s) && d < dst
    requires lo == d * (|data| / dst) && hi == (d + 1) * (|data| / dst) && lo <= hi
    requires a == s * (|data| / src) && b == (s + 1) * (|data| / src) && a <= b <= |data|
    ensures Sent<T>(data, src, dst, s, d) == data[Clip(lo, a, b)..Clip(hi, a, b)]
  {
    SentRows<T>(data, src, dst, s, d, |data| / src, |data| / dst);
  }

  /** Concatenating what arrives in sender order rebuilds the receiver's own shard of the batch. */
  lemma {:induction false} ReceivedIsShard<T>(data: seq<T>, src: nat, dst: nat, d: nat)
    requires Divisible(|data|, dst, src, d)
    ensures Received<T>(data, src, dst, d, src) == Shard<T>(data, dst, d)
  {
    ShardBounds(|data|, src, 0);
    ShardBounds(|data|, dst, d);
    ReceivedPrefix<T>(data, src, dst, d, src, d * (|data| / dst), (d + 1) * (|data| / dst));
  }
}
