/**
 Merging the batches of several groups: trajectory numbers are shifted group by group, so turns of
 different groups never share a trajectory.
*/
module BatchMerging {
  import opened Sequences
  import opened Outcomes

  /** A batch: the trajectory of every turn, and the turns' rows. */
  datatype Batch<Row> = Batch(trajs: seq<int>, rows: seq<Row>)

  function Shifted(trajs: seq<int>, offset: int): (r: seq<int>)
    ensures |r| == |trajs| && forall k :: 0 <= k < |trajs| ==> r[k] == trajs[k] + offset
  {
    seq(|trajs|, k requires 0 <= k < |trajs| => trajs[k] + offset)
  }

  /** The merged trajectories of the first n batches. */
  function MergedTrajs<Row>(batches: seq<Batch<Row>>, groupSize: int, n: nat): seq<int>
    requires n <= |batches|
  {
    if n == 0 then []
    else MergedTrajs(batches, groupSize, n - 1) + Shifted(batches[n - 1].trajs, (n - 1) * groupSize)
  }

  function MergedRows<Row>(batches: seq<Batch<Row>>, n: nat): seq<Row>
    requires n <= |batches|
  {
    if n == 0 then [] else MergedRows(batches, n - 1) + batches[n - 1].rows
  }

  /**
   `DynamicRolloutResult.merge_batches`; None stands for the empty dictionary. Without a group size
   only fewer than two batches can be merged with adjusted trajectories.
  */
  method MergeBatches<Row>(batches: seq<Batch<Row>>, groupSize: Option<int>, adjust: bool)
    returns (r: Result<Option<Batch<Row>>>)
    ensures r == if batches == [] then Ok(None)
                 else if |batches| > 1 && adjust && groupSize.None? then Err(ValueError)
                 else
                   var shift := if adjust && groupSize.Some? then groupSize.value else 0;
                   Ok(Some(Batch(MergedTrajs(batches, shift, |batches|), MergedRows(batches, |batches|))))
  {
    if |batches| == 0 {
      return Ok(None);
    }
    if |batches| == 1 {
      OneBatch(batches[0], if adjust && groupSize.Some? then groupSize.value else 0);
      assert batches == [batches[0]];
      return Ok(Some(batches[0]));
    }
    if adjust && groupSize.None? {
      return Err(ValueError);
    }
    var size := if adjust then groupSize.value else 0;
    var trajs: seq<int>, rows: seq<Row> := [], [];
    for i := 0 to |batches|
      invariant trajs == MergedTrajs(batches, size, i) && rows == MergedRows(batches, i)
    {
      trajs := trajs + Shifted(batches[i].trajs, i * size);
      rows := rows + batches[i].rows;
    }
    r := Ok(Some(Batch(trajs, rows)));
  }

  lemma {:induction false} OneBatch<Row>(batch: Batch<Row>, groupSize: int)
    ensures MergedTrajs([batch], groupSize, 1) == batch.trajs && MergedRows([batch], 1) == batch.rows
  {
    assert MergedTrajs([batch], groupSize, 1) == [] + Shifted(batch.trajs, 0);
    assert MergedRows([batch], 1) == [] + batch.rows;
  }

  // ---------------------------------------------------------------- where a turn ends up

  /** How many turns the first n batches have. */
  function TurnsBefore<Row>(batches: seq<Batch<Row>>, n: nat): nat
    requires n <= |batches|
  {
    if n == 0 then 0 else TurnsBefore(batches, n - 1) + |batches[n - 1].trajs|
  }

  ghost predicate Aligned<Row>(batches: seq<Batch<Row>>) {
    forall b :: 0 <= b < |batches| ==> |batches[b].rows| == |batches[b].trajs|
  }

  /** Turn k of batch b keeps its row and its trajectory number within the group. */
  lemma {:induction false} TurnPlace<Row>(batches: seq<Batch<Row>>, groupSize: int, n: nat, b: nat, k: nat)
    requires Aligned(batches) && b < n <= |batches| && k < |batches[b].trajs|
    ensures TurnsBefore(batches, b) + k < TurnsBefore(batches, n)
    ensures |MergedTrajs(batches, groupSize, n)| == |MergedRows(batches, n)| == TurnsBefore(batches, n)
    ensures MergedTrajs(batches, groupSize, n)[TurnsBefore(batches, b) + k] == batches[b].trajs[k] + b * groupSize
    ensures MergedRows(batches, n)[TurnsBefore(batches, b) + k] == batches[b].rows[k]
  {
    MergedLength(batches, groupSize, n - 1);
    if b < n - 1 {
      TurnPlace(batches, groupSize, n - 1, b, k);
    }
  }

  lemma {:induction false} MergedLength<Row>(batches: seq<Batch<Row>>, groupSize: int, n: nat)
    requires Aligned(batches) && n <= |batches|
    ensures |MergedTrajs(batches, groupSize, n)| == |MergedRows(batches, n)| == TurnsBefore(batches, n)
  {
    if n > 0 {
      MergedLength(batches, groupSize, n - 1);
    }
  }

  /** Trajectory numbers stay below the group size. */
  ghost predicate Numbered<Row>(batches: seq<Batch<Row>>, groupSize: nat) {
    forall b, k :: 0 <= b < |batches| && 0 <= k < |batches[b].trajs| ==> 0 <= batches[b].trajs[k] < groupSize
  }

  /** Merged turns share a trajectory exactly if they come from one batch and shared it there. */
  lemma {:induction false} SameTrajectoryExactly<Row>(batches: seq<Batch<Row>>, groupSize: nat, b: nat, k: nat,
        c: nat, l: nat)
    requires Aligned(batches) && Numbered(batches, groupSize) && b < |batches| && c < |batches|
    requires k < |batches[b].trajs| && l < |batches[c].trajs|
    ensures TurnsBefore(batches, b) + k < TurnsBefore(batches, |batches|)
      == |MergedTrajs(batches, groupSize, |batches|)|
    ensures TurnsBefore(batches, c) + l < TurnsBefore(batches, |batches|)
    ensures MergedTrajs(batches, groupSize, |batches|)[TurnsBefore(batches, b) + k]
      == MergedTrajs(batches, groupSize, |batches|)[TurnsBefore(batches, c) + l]
      <==> b == c && batches[b].trajs[k] == batches[c].trajs[l]
  {
    TurnPlace(batches, groupSize, |batches|, b, k);
    TurnPlace(batches, groupSize, |batches|, c, l);
    var x, y := batches[b].trajs[k], batches[c].trajs[l];
    DivModUnique(x + b * groupSize, b, x, groupSize);
    DivModUnique(y + c * groupSize, c, y, groupSize);
  }

  /** A number as large as the group size is taken for a number of the next batch. */
  lemma {:induction false} LargeNumbersCollide<Row>(batches: seq<Batch<Row>>, groupSize: nat, b: nat, k: nat, l: nat)
    requires Aligned(batches) && b + 1 < |batches| && k < |batches[b].trajs| && l < |batches[b + 1].trajs|
    requires batches[b].trajs[k] >= groupSize && batches[b + 1].trajs[l] == batches[b].trajs[k] - groupSize
    ensures TurnsBefore(batches, b) + k < TurnsBefore(batches, |batches|)
      == |MergedTrajs(batches, groupSize, |batches|)|
    ensures TurnsBefore(batches, b + 1) + l < TurnsBefore(batches, |batches|)
    ensures MergedTrajs(batches, groupSize, |batches|)[TurnsBefore(batches, b) + k]
      == MergedTrajs(batches, groupSize, |batches|)[TurnsBefore(batches, b + 1) + l]
  {
    TurnPlace(batches, groupSize, |batches|, b, k);
    TurnPlace(batches, groupSize, |batches|, b + 1, l);
    SuccTimes(b, groupSize);
  }
}
