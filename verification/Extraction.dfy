/**
 Cutting the intervened steps out of a trajectory, one environment at a time. Done flags carry one
 extra row at the start of every rollout epoch; the field mask keeps those rows and otherwise
 repeats the step mask. Cutting and flattening commute exactly if every epoch keeps equally many steps.
*/
module Extraction {
  import opened Sequences
  import opened Outcomes

  // ---------------------------------------------------------------- epochs

  /** The row of step p in a field with one start row before every epoch of `len` steps. */
  function RowOfStep(p: nat, len: nat): nat
    requires len > 0
  {
    p / len * (len + 1) + p % len + 1
  }

  /** `n` times `each`. */
  function Many(n: nat, each: nat): nat {
    if n == 0 then 0 else each + Many(n - 1, each)
  }

  lemma {:induction false} ManyTimes(n: nat, each: nat)
    ensures Many(n, each) == n * each
  {
    if n > 0 {
      ManyTimes(n - 1, each);
      SuccTimes(n - 1, each);
    }
  }

  lemma {:induction false} EpochBounds(p: nat, e: nat, s: nat, len: nat, epochs: nat)
    requires s < len && p == e * len + s && p < epochs * len
    ensures e < epochs && 0 <= e * (len + 1) + s + 1 < epochs * (len + 1)
    ensures (e * (len + 1) + s + 1) / (len + 1) == e && (e * (len + 1) + s + 1) % (len + 1) == s + 1
  {
    if e >= epochs {
      MulMono(epochs, e, len);
    }
    SuccTimes(e, len + 1);
    MulMono(0, e, len + 1);
    MulMono(e + 1, epochs, len + 1);
    DivModUnique(e * (len + 1) + s + 1, e, s + 1, len + 1);
  }

  lemma {:induction false} RowBounds(p: nat, len: nat, epochs: nat)
    requires len > 0 && p < Many(epochs, len)
    ensures p / len < epochs && p == p / len * len + p % len && p % len < len
    ensures RowOfStep(p, len) < Many(epochs, len + 1)
    ensures RowOfStep(p, len) / (len + 1) == p / len && RowOfStep(p, len) % (len + 1) == p % len + 1
  {
    ManyTimes(epochs, len);
    ManyTimes(epochs, len + 1);
    var e, s := p / len, p % len;
    assert p == e * len + s;
    EpochBounds(p, e, s, len, epochs);
  }

  lemma {:induction false} StartBounds(e: nat, len: nat, epochs: nat)
    requires e < epochs
    ensures e * (len + 1) < Many(epochs, len + 1) && e * (len + 1) % (len + 1) == 0
  {
    ManyTimes(epochs, len + 1);
    SuccTimes(e, len + 1);
    MulMono(e + 1, epochs, len + 1);
    DivModUnique(e * (len + 1), e, 0, len + 1);
  }

  lemma {:induction false} StepLength(p: nat, len: nat, epochs: nat)
    requires p < Many(epochs, len)
    ensures len > 0
  {
    ManyTimes(epochs, len);
  }

  /** The value of step p. */
  function StepValue<T>(x: seq<T>, epochs: nat, len: nat, p: nat): T
    requires |x| == Many(epochs, len + 1) && p < Many(epochs, len)
  {
    StepLength(p, len, epochs);
    RowBounds(p, len, epochs);
    x[RowOfStep(p, len)]
  }

  /** The rows without the start row of every epoch. */
  function DropStarts<T>(x: seq<T>, epochs: nat, len: nat): (r: seq<T>)
    requires |x| == Many(epochs, len + 1)
  {
    seq(Many(epochs, len), p requires 0 <= p < Many(epochs, len) => StepValue(x, epochs, len, p))
  }

  // ---------------------------------------------------------------- the field mask

  predicate IsStart(row: nat, len: nat) {
    row % (len + 1) == 0
  }

  /** The step a row stands for. */
  function StepOfRow(row: nat, len: nat): nat
    requires !IsStart(row, len)
  {
    row / (len + 1) * len + (row % (len + 1) - 1)
  }

  /** What the field mask says about a row: start rows are kept, the others follow their step. */
  predicate MaskAt(mask: seq<bool>, len: nat, row: nat) {
    IsStart(row, len) || (StepOfRow(row, len) < |mask| && mask[StepOfRow(row, len)])
  }

  function FieldMask(refLength: nat, mask: seq<bool>): (r: Result<seq<bool>>)
    ensures r.Ok? ==> |r.value| == refLength
  {
    var steps := |mask|;
    if refLength == steps then Ok(mask)
    else if refLength < steps then Err(ValueError)
    else if steps % (refLength - steps) != 0 then Err(AssertionError)
    else Ok(RowMask(refLength, mask, steps / (refLength - steps)))
  }

  function RowMask(refLength: nat, mask: seq<bool>, len: nat): (r: seq<bool>)
    ensures |r| == refLength
  {
    seq(refLength, row requires 0 <= row < refLength => MaskAt(mask, len, row))
  }

  /** `_generate_field_mask`. */
  method GenerateFieldMask(refLength: nat, mask: seq<bool>) returns (r: Result<seq<bool>>)
    ensures r == FieldMask(refLength, mask)
  {
    var steps := |mask|;
    if refLength == steps {
      return Ok(mask);
    }
    if refLength < steps {
      return Err(ValueError);
    }
    var extra := refLength - steps;
    if steps % extra != 0 {
      return Err(AssertionError);
    }
    var fieldMask := new bool[refLength](_ => false);
    MarkStarts(fieldMask, steps / extra);
    MapSteps(fieldMask, mask, steps / extra);
    r := Ok(fieldMask[..]);
  }

  method MarkStarts(fieldMask: array<bool>, len: nat)
    requires forall i {:trigger fieldMask[i]} :: 0 <= i < fieldMask.Length ==> !fieldMask[i]
    modifies fieldMask
    ensures forall i {:trigger fieldMask[i]} :: 0 <= i < fieldMask.Length ==> fieldMask[i] == IsStart(i, len)
  {
    for row := 0 to fieldMask.Length
      invariant forall i {:trigger fieldMask[i]} :: 0 <= i < fieldMask.Length ==>
        fieldMask[i] == (i < row && IsStart(i, len))
    {
      if IsStart(row, len) {
        fieldMask[row] := true;
      }
    }
  }

  method MapSteps(fieldMask: array<bool>, mask: seq<bool>, len: nat)
    requires forall i {:trigger fieldMask[i]} :: 0 <= i < fieldMask.Length ==> fieldMask[i] == IsStart(i, len)
    modifies fieldMask
    ensures fieldMask[..] == RowMask(fieldMask.Length, mask, len)
  {
    for row := 0 to fieldMask.Length
      invariant forall i {:trigger fieldMask[i]} :: 0 <= i < row ==> fieldMask[i] == MaskAt(mask, len, i)
      invariant forall i {:trigger fieldMask[i]} :: row <= i < fieldMask.Length ==> fieldMask[i] == IsStart(i, len)
    {
      if !IsStart(row, len) {
        var step := StepOfRow(row, len);
        if step < |mask| {
          fieldMask[row] := mask[step];
        }
      }
    }
  }

  /** Epochs and their length, from the extra rows of a field. */
  lemma {:induction false} EpochShape(steps: nat, epochs: nat)
    requires epochs > 0 && steps % epochs == 0
    ensures steps == Many(epochs, steps / epochs) && steps + epochs == Many(epochs, steps / epochs + 1)
  {
    ManyTimes(epochs, steps / epochs);
    ManyTimes(epochs, steps / epochs + 1);
    SuccTimes(steps / epochs, epochs);
  }

  /** Without the start rows the field mask is the step mask, for any number of epochs. */
  lemma {:induction false} StepsOfFieldMask(mask: seq<bool>, epochs: nat)
    requires epochs > 0 && |mask| % epochs == 0
    ensures FieldMask(|mask| + epochs, mask).Ok?
    ensures |mask| + epochs == Many(epochs, |mask| / epochs + 1)
    ensures DropStarts(FieldMask(|mask| + epochs, mask).value, epochs, |mask| / epochs) == mask
  {
    var len := |mask| / epochs;
    EpochShape(|mask|, epochs);
    var field := FieldMask(|mask| + epochs, mask).value;
    forall p: nat | p < |mask| ensures DropStarts(field, epochs, len)[p] == mask[p] {
      RowBounds(p, len, epochs);
    }
  }

  /** And every start row is kept. */
  lemma {:induction false} StartsKept(mask: seq<bool>, epochs: nat, e: nat)
    requires epochs > 0 && |mask| % epochs == 0 && e < epochs
    ensures FieldMask(|mask| + epochs, mask).Ok? && e * (|mask| / epochs + 1) < |mask| + epochs
    ensures FieldMask(|mask| + epochs, mask).value[e * (|mask| / epochs + 1)]
  {
    EpochShape(|mask|, epochs);
    StartBounds(e, |mask| / epochs, epochs);
  }

  // ---------------------------------------------------------------- selecting and flattening

  /** `x[mask]`. */
  function Select<T>(x: seq<T>, mask: seq<bool>): seq<T>
    requires |x| == |mask|
  {
    if x == [] then [] else (if mask[0] then [x[0]] else []) + Select(x[1..], mask[1..])
  }

  /** `x[:, i]`. */
  function Column<T>(x: seq<seq<T>>, i: nat): (r: seq<T>)
    requires forall t :: 0 <= t < |x| ==> i < |x[t]|
    ensures |r| == |x| && forall t :: 0 <= t < |x| ==> r[t] == x[t][i]
  {
    seq(|x|, t requires 0 <= t < |x| => x[t][i])
  }

  ghost predicate Wide<T>(x: seq<seq<T>>, envs: nat) {
    forall t :: 0 <= t < |x| ==> |x[t]| == envs
  }

  /** `reshape(-1)`: all environments of a step, step after step. */
  lemma {:induction false} FlatAt<T>(x: seq<seq<T>>, envs: nat, t: nat, i: nat)
    requires Wide(x, envs) && t < |x| && i < envs
    ensures |Flatten(x)| == |x| * envs && 0 <= t * envs + i < |Flatten(x)| && Flatten(x)[t * envs + i] == x[t][i]
  {
    FlatLength(x, envs);
    SuccTimes(t, envs);
    MulMono(t + 1, |x|, envs);
    MulMono(0, t, envs);
    FlatSplit(x, envs, t);
  }

  lemma {:induction false} FlatLength<T>(x: seq<seq<T>>, envs: nat)
    requires Wide(x, envs)
    ensures |Flatten(x)| == |x| * envs
  {
    if x != [] {
      FlatLength(x[1..], envs);
      SuccTimes(|x| - 1, envs);
    }
  }

  lemma {:induction false} FlatSplit<T>(x: seq<seq<T>>, envs: nat, t: nat)
    requires Wide(x, envs) && t < |x|
    ensures Flatten(x) == Flatten(x[..t]) + x[t] + Flatten(x[t + 1..]) && |Flatten(x[..t])| == t * envs
  {
    FlattenConcat(x[..t], x[t..]);
    assert x == x[..t] + x[t..] && x[t..][1..] == x[t + 1..];
    FlatLength(x[..t], envs);
  }

  /** Environment i of a flattened field. */
  function FlatColumn<T>(flat: seq<T>, envs: nat, i: nat, steps: nat): (r: seq<T>)
    requires |flat| == steps * envs && i < envs
    ensures |r| == steps
  {
    seq(steps, t requires 0 <= t < steps => FlatIndex(t, envs, i, steps); flat[t * envs + i])
  }

  lemma {:induction false} FlatIndex(t: nat, envs: nat, i: nat, steps: nat)
    requires t < steps && i < envs
    ensures 0 <= t * envs + i < steps * envs
  {
    SuccTimes(t, envs);
    MulMono(t + 1, steps, envs);
    MulMono(0, t, envs);
  }

  lemma {:induction false} FlatColumnIsColumn<T>(x: seq<seq<T>>, envs: nat, i: nat)
    requires Wide(x, envs) && i < envs
    ensures |Flatten(x)| == |x| * envs && FlatColumn(Flatten(x), envs, i, |x|) == Column(x, i)
  {
    FlatLength(x, envs);
    forall t: nat | t < |x| ensures FlatColumn(Flatten(x), envs, i, |x|)[t] == Column(x, i)[t] {
      FlatAt(x, envs, t, i);
    }
  }

  /** `_flatten_trajectory` for actions, rewards and the like. */
  function FlatRows<T>(x: seq<seq<T>>): seq<T> {
    Flatten(x)
  }

  /** `_flatten_trajectory` for done flags: start rows are dropped first. */
  function FlatDones<T>(x: seq<seq<T>>, steps: nat): Result<seq<T>> {
    if |x| <= steps then Ok(Flatten(x))
    else if steps % (|x| - steps) != 0 then Err(AssertionError)
    else
      var epochs := |x| - steps;
      EpochShape(steps, epochs);
      Ok(Flatten(DropStarts(x, epochs, steps / epochs)))
  }

  /** `unsqueeze(1)`: a column as a field of one environment. */
  function AsField<T>(column: seq<T>): (r: seq<seq<T>>)
    ensures |r| == |column| && forall t :: 0 <= t < |r| ==> r[t] == [column[t]]
  {
    seq(|column|, t requires 0 <= t < |column| => [column[t]])
  }

  lemma {:induction false} FlattenField<T>(column: seq<T>)
    ensures Flatten(AsField(column)) == column
  {
    if column != [] {
      FlattenField(column[1..]);
      assert AsField(column)[1..] == AsField(column[1..]);
    }
  }

  lemma {:induction false} Associate<T>(a: seq<T>, b: seq<T>, c: seq<T>)
    ensures (a + b) + c == a + (b + c)
  {
  }

  lemma {:induction false} SelectConcat<T>(x: seq<T>, y: seq<T>, m: seq<bool>, n: seq<bool>)
    requires |x| == |m| && |y| == |n|
    ensures Select(x + y, m + n) == Select(x, m) + Select(y, n)
  {
    if x == [] {
      assert x + y == y && m + n == n;
    } else {
      SelectConcat(x[1..], y, m[1..], n);
      assert (x + y)[1..] == x[1..] + y && (m + n)[1..] == m[1..] + n;
      Associate(if m[0] then [x[0]] else [], Select(x[1..], m[1..]), Select(y, n));
    }
  }

  function Kept(mask: seq<bool>): nat {
    if mask == [] then 0 else (if mask[0] then 1 else 0) + Kept(mask[1..])
  }

  lemma {:induction false} SelectLength<T>(x: seq<T>, mask: seq<bool>)
    requires |x| == |mask|
    ensures |Select(x, mask)| == Kept(mask)
  {
    if x != [] {
      SelectLength(x[1..], mask[1..]);
    }
  }

  /** A selected entry stands behind the selected entries before it. */
  lemma {:induction false} SelectedAt<T>(x: seq<T>, mask: seq<bool>, t: nat)
    requires |x| == |mask| && t < |x| && mask[t]
    ensures Kept(mask[..t]) < |Select(x, mask)| && Select(x, mask)[Kept(mask[..t])] == x[t]
  {
    if t > 0 {
      SelectedAt(x[1..], mask[1..], t - 1);
      assert mask[..t][1..] == mask[1..][..t - 1];
    }
  }

  /** And every entry was selected. */
  lemma {:induction false} SelectedFrom<T>(x: seq<T>, mask: seq<bool>, j: nat) returns (t: nat)
    requires |x| == |mask| && j < |Select(x, mask)|
    ensures t < |mask| && mask[t] && Kept(mask[..t]) == j
  {
    if mask[0] && j == 0 {
      t := 0;
    } else {
      var u := SelectedFrom(x[1..], mask[1..], if mask[0] then j - 1 else j);
      t := u + 1;
      assert mask[..t][1..] == mask[1..][..u];
    }
  }

  lemma {:induction false} KeptConcat(m: seq<bool>, n: seq<bool>)
    ensures Kept(m + n) == Kept(m) + Kept(n)
  {
    if m == [] {
      assert m + n == n;
    } else {
      KeptConcat(m[1..], n);
      assert (m + n)[1..] == m[1..] + n;
    }
  }

  // ---------------------------------------------------------------- one epoch at a time

  lemma {:induction false} RowOfLaterStep(p: nat, len: nat)
    requires len > 0
    ensures RowOfStep(p + len, len) == RowOfStep(p, len) + (len + 1)
  {
    DivModUnique(p + len, p / len + 1, p % len, len);
    SuccTimes(p / len, len + 1);
    SuccTimes(p / len, len);
  }

  lemma {:induction false} RowOfFirstSteps(p: nat, len: nat)
    requires p < len
    ensures RowOfStep(p, len) == p + 1
  {
    DivModUnique(p, 0, p, len);
  }

  lemma {:induction false} FirstStepValue<T>(x: seq<T>, epochs: nat, len: nat, p: nat)
    requires epochs > 0 && |x| == Many(epochs, len + 1) && p < len && p < Many(epochs, len)
    ensures StepValue(x, epochs, len, p) == x[1..len + 1][p]
  {
    RowOfFirstSteps(p, len);
  }

  lemma {:induction false} LaterStepValue<T>(x: seq<T>, epochs: nat, len: nat, p: nat)
    requires epochs > 0 && |x| == Many(epochs, len + 1) && len <= p < Many(epochs, len)
    ensures |x| - (len + 1) == Many(epochs - 1, len + 1) && p - len < Many(epochs - 1, len)
    ensures StepValue(x, epochs, len, p) == StepValue(x[len + 1..], epochs - 1, len, p - len)
  {
    StepLength(p, len, epochs);
    RowOfLaterStep(p - len, len);
    RowBounds(p - len, len, epochs - 1);
  }

  lemma {:induction false} DropPeel<T>(x: seq<T>, epochs: nat, len: nat)
    requires epochs > 0 && |x| == Many(epochs, len + 1)
    ensures |x| - (len + 1) == Many(epochs - 1, len + 1)
    ensures DropStarts(x, epochs, len) == x[1..len + 1] + DropStarts(x[len + 1..], epochs - 1, len)
  {
    var whole, rest := DropStarts(x, epochs, len), DropStarts(x[len + 1..], epochs - 1, len);
    forall p: nat | p < Many(epochs, len) ensures whole[p] == (x[1..len + 1] + rest)[p] {
      if p < len {
        FirstStepValue(x, epochs, len, p);
      } else {
        LaterStepValue(x, epochs, len, p);
      }
    }
  }

  lemma {:induction false} LaterRow(row: nat, len: nat)
    ensures IsStart(row + (len + 1), len) <==> IsStart(row, len)
    ensures !IsStart(row, len) ==> StepOfRow(row + (len + 1), len) == StepOfRow(row, len) + len
  {
    DivModUnique(row + (len + 1), row / (len + 1) + 1, row % (len + 1), len + 1);
    SuccTimes(row / (len + 1), len);
    SuccTimes(row / (len + 1), len + 1);
  }

  lemma {:induction false} FirstRows(row: nat, len: nat)
    requires row < len + 1
    ensures IsStart(row, len) <==> row == 0
    ensures row > 0 ==> StepOfRow(row, len) == row - 1
  {
    DivModUnique(row, 0, row, len + 1);
  }

  lemma {:induction false} MaskPeel(mask: seq<bool>, epochs: nat, len: nat)
    requires epochs > 0 && |mask| == Many(epochs, len)
    ensures |mask| - len == Many(epochs - 1, len) && Many(epochs, len + 1) == len + 1 + Many(epochs - 1, len + 1)
    ensures RowMask(Many(epochs, len + 1), mask, len) ==
      ([true] + mask[..len]) + RowMask(Many(epochs - 1, len + 1), mask[len..], len)
  {
    var whole := RowMask(Many(epochs, len + 1), mask, len);
    var rest := RowMask(Many(epochs - 1, len + 1), mask[len..], len);
    forall row: nat | row < |whole| ensures whole[row] == (([true] + mask[..len]) + rest)[row] {
      if row < len + 1 {
        FirstRows(row, len);
      } else {
        LaterRow(row - (len + 1), len);
      }
    }
  }

  /** What is kept of a column, epoch by epoch. */
  lemma {:induction false} CutPeel<T>(x: seq<T>, mask: seq<bool>, epochs: nat, len: nat)
    requires epochs > 0 && |mask| == Many(epochs, len) && |x| == Many(epochs, len + 1)
    ensures |mask| - len == Many(epochs - 1, len) && |x| - (len + 1) == Many(epochs - 1, len + 1)
    ensures Select(x, RowMask(|x|, mask, len)) == ([x[0]] + Select(x[1..len + 1], mask[..len]))
      + Select(x[len + 1..], RowMask(|x| - (len + 1), mask[len..], len))
  {
    MaskPeel(mask, epochs, len);
    var rest := RowMask(|x| - (len + 1), mask[len..], len);
    assert x == x[..len + 1] + x[len + 1..];
    SelectConcat(x[..len + 1], x[len + 1..], [true] + mask[..len], rest);
    assert x[..len + 1][1..] == x[1..len + 1] && ([true] + mask[..len])[1..] == mask[..len];
  }

  /** The field mask keeps every start row besides the kept steps. */
  lemma {:induction false} KeptRows(mask: seq<bool>, epochs: nat, len: nat)
    requires |mask| == Many(epochs, len)
    ensures Kept(RowMask(Many(epochs, len + 1), mask, len)) == Kept(mask) + epochs
  {
    if epochs > 0 {
      MaskPeel(mask, epochs, len);
      KeptRows(mask[len..], epochs - 1, len);
      KeptConcat([true] + mask[..len], RowMask(Many(epochs - 1, len + 1), mask[len..], len));
      KeptConcat(mask[..len], mask[len..]);
      assert mask == mask[..len] + mask[len..];
      assert ([true] + mask[..len])[1..] == mask[..len];
    }
  }

  // ---------------------------------------------------------------- flattening what was cut

  /** Every epoch keeps `each` steps. */
  predicate EvenlyKept(mask: seq<bool>, epochs: nat, len: nat, each: nat)
    requires |mask| == Many(epochs, len)
  {
    epochs == 0 || (Kept(mask[..len]) == each && EvenlyKept(mask[len..], epochs - 1, len, each))
  }

  lemma {:induction false} EvenTotal(mask: seq<bool>, epochs: nat, len: nat, each: nat)
    requires |mask| == Many(epochs, len) && EvenlyKept(mask, epochs, len, each)
    ensures Kept(mask) == Many(epochs, each)
  {
    if epochs > 0 {
      EvenTotal(mask[len..], epochs - 1, len, each);
      KeptConcat(mask[..len], mask[len..]);
      assert mask == mask[..len] + mask[len..];
    }
  }

  lemma {:induction false} DropFirst<T>(head: T, first: seq<T>, rest: seq<T>, epochs: nat, each: nat)
    requires epochs > 0 && |first| == each && |rest| == Many(epochs - 1, each + 1)
    ensures |([head] + first) + rest| == Many(epochs, each + 1)
    ensures DropStarts(([head] + first) + rest, epochs, each) == first + DropStarts(rest, epochs - 1, each)
  {
    var cut := ([head] + first) + rest;
    DropPeel(cut, epochs, each);
    assert cut[1..each + 1] == first && cut[each + 1..] == rest;
  }

  lemma {:induction false} SelectPeel<T>(x: seq<T>, mask: seq<bool>, epochs: nat, len: nat)
    requires epochs > 0 && |mask| == Many(epochs, len) && |x| == Many(epochs, len + 1)
    ensures |mask| - len == Many(epochs - 1, len) && |x| - (len + 1) == Many(epochs - 1, len + 1)
    ensures Select(DropStarts(x, epochs, len), mask) == Select(x[1..len + 1], mask[..len])
      + Select(DropStarts(x[len + 1..], epochs - 1, len), mask[len..])
  {
    DropPeel(x, epochs, len);
    SelectConcat(x[1..len + 1], DropStarts(x[len + 1..], epochs - 1, len), mask[..len], mask[len..]);
    assert mask == mask[..len] + mask[len..];
  }

  lemma {:induction false} EvenCut<T>(x: seq<T>, mask: seq<bool>, epochs: nat, len: nat, each: nat)
    requires |mask| == Many(epochs, len) && |x| == Many(epochs, len + 1) && EvenlyKept(mask, epochs, len, each)
    ensures |Select(x, RowMask(|x|, mask, len))| == Many(epochs, each + 1)
    ensures DropStarts(Select(x, RowMask(|x|, mask, len)), epochs, each) == Select(DropStarts(x, epochs, len), mask)
  {
    if epochs > 0 {
      CutPeel(x, mask, epochs, len);
      EvenCut(x[len + 1..], mask[len..], epochs - 1, len, each);
      SelectLength(x[1..len + 1], mask[..len]);
      DropFirst(x[0], Select(x[1..len + 1], mask[..len]),
                Select(x[len + 1..], RowMask(|x| - (len + 1), mask[len..], len)), epochs, each);
      SelectPeel(x, mask, epochs, len);
    }
  }

  /** Dropping one row an epoch drops at most that many marks, and fewer when the first row has none. */
  lemma {:induction false} MarksLeft(x: seq<bool>, epochs: nat, each: nat)
    requires |x| == Many(epochs, each + 1)
    ensures Kept(x) <= Kept(DropStarts(x, epochs, each)) + epochs
    ensures epochs > 0 && !x[0] ==> Kept(x) < Kept(DropStarts(x, epochs, each)) + epochs
  {
    if epochs > 0 {
      DropPeel(x, epochs, each);
      MarksLeft(x[each + 1..], epochs - 1, each);
      KeptConcat(x[1..each + 1], DropStarts(x[each + 1..], epochs - 1, each));
      KeptConcat(x[1..each + 1], x[each + 1..]);
      assert x[1..] == x[1..each + 1] + x[each + 1..];
    }
  }

  lemma {:induction false} MarksOut(x: seq<bool>, mask: seq<bool>)
    requires |x| == |mask| && Kept(x) == 0
    ensures Kept(Select(x, mask)) == 0
  {
    if x != [] {
      MarksOut(x[1..], mask[1..]);
      if mask[0] {
        assert Select(x, mask)[1..] == Select(x[1..], mask[1..]);
      } else {
        assert Select(x, mask) == Select(x[1..], mask[1..]);
      }
    }
  }

  /** A field that marks the start rows and nothing else. */
  function Starts(epochs: nat, len: nat): (r: seq<bool>)
    ensures |r| == Many(epochs, len + 1)
  {
    if epochs == 0 then [] else ([true] + Nones(len)) + Starts(epochs - 1, len)
  }

  function Nones(n: nat): (r: seq<bool>)
    ensures |r| == n
  {
    seq(n, _ => false)
  }

  lemma {:induction false} NoneKept(x: seq<bool>)
    requires forall i :: 0 <= i < |x| ==> !x[i]
    ensures Kept(x) == 0
  {
    if x != [] {
      NoneKept(x[1..]);
    }
  }

  lemma {:induction false} KeptAt(x: seq<bool>, i: nat)
    requires i < |x| && x[i]
    ensures Kept(x) > 0
  {
    if i > 0 {
      KeptAt(x[1..], i - 1);
    }
  }

  lemma {:induction false} NoStartsAmongSteps(epochs: nat, len: nat)
    ensures Kept(DropStarts(Starts(epochs, len), epochs, len)) == 0
  {
    if epochs > 0 {
      DropFirst(true, Nones(len), Starts(epochs - 1, len), epochs, len);
      NoneKept(Nones(len));
      NoStartsAmongSteps(epochs - 1, len);
      KeptConcat(Nones(len), DropStarts(Starts(epochs - 1, len), epochs - 1, len));
    }
  }

  function CutStarts(mask: seq<bool>, epochs: nat, len: nat): (r: seq<bool>)
    requires |mask| == Many(epochs, len)
  {
    Select(Starts(epochs, len), RowMask(Many(epochs, len + 1), mask, len))
  }

  /** The cut start marks: one per epoch, followed by as many unmarked rows as the epoch keeps. */
  lemma {:induction false} CutStartsPeel(mask: seq<bool>, epochs: nat, len: nat)
    requires epochs > 0 && |mask| == Many(epochs, len)
    ensures CutStarts(mask, epochs, len)
      == ([true] + Nones(Kept(mask[..len]))) + CutStarts(mask[len..], epochs - 1, len)
  {
    var x := Starts(epochs, len);
    CutPeel(x, mask, epochs, len);
    assert x[1..len + 1] == Nones(len) && x[len + 1..] == Starts(epochs - 1, len);
    SelectNones(mask[..len]);
  }

  lemma {:induction false} SelectNones(mask: seq<bool>)
    ensures Select(Nones(|mask|), mask) == Nones(Kept(mask))
  {
    if mask != [] {
      SelectNones(mask[1..]);
      assert Nones(|mask|)[1..] == Nones(|mask| - 1);
      if mask[0] {
        assert Nones(Kept(mask)) == [false] + Nones(Kept(mask) - 1);
      }
    }
  }

  lemma {:induction false} CutStartsMarks(mask: seq<bool>, epochs: nat, len: nat)
    requires |mask| == Many(epochs, len)
    ensures Kept(CutStarts(mask, epochs, len)) == epochs
  {
    if epochs > 0 {
      CutStartsPeel(mask, epochs, len);
      CutStartsMarks(mask[len..], epochs - 1, len);
      var none := Nones(Kept(mask[..len]));
      NoneKept(none);
      KeptConcat([true] + none, CutStarts(mask[len..], epochs - 1, len));
      assert ([true] + none)[1..] == none;
    }
  }

  /** Dropping every (each + 1)-th row removes all the start marks only when every epoch keeps `each` steps. */
  lemma {:induction false} StartsGoneOnlyIfEven(mask: seq<bool>, epochs: nat, len: nat, each: nat)
    requires |mask| == Many(epochs, len)
    requires |CutStarts(mask, epochs, len)| == Many(epochs, each + 1)
    requires Kept(DropStarts(CutStarts(mask, epochs, len), epochs, each)) == 0
    ensures EvenlyKept(mask, epochs, len, each)
  {
    if epochs > 0 {
      var cut, rest := CutStarts(mask, epochs, len), CutStarts(mask[len..], epochs - 1, len);
      var first := Kept(mask[..len]);
      CutStartsPeel(mask, epochs, len);
      CutStartsMarks(mask[len..], epochs - 1, len);
      if first < each {
        CutStartsNext(mask[len..], epochs - 1, len, each - first);
      }
      FirstAsLong(cut, first, rest, each, epochs);
      StartsGoneOnlyIfEven(mask[len..], epochs - 1, len, each);
    }
  }

  lemma {:induction false} FirstAsLong(cut: seq<bool>, first: nat, rest: seq<bool>, each: nat, epochs: nat)
    requires epochs > 0 && |cut| == Many(epochs, each + 1)
    requires cut == ([true] + Nones(first)) + rest && Kept(rest) == epochs - 1
    requires first < each ==> rest != [] && rest[0]
    requires Kept(DropStarts(cut, epochs, each)) == 0
    ensures first == each && |rest| == Many(epochs - 1, each + 1) && Kept(DropStarts(rest, epochs - 1, each)) == 0
  {
    DropPeel(cut, epochs, each);
    KeptConcat(cut[1..each + 1], DropStarts(cut[each + 1..], epochs - 1, each));
    if first == each {
      assert cut[each + 1..] == rest;
    } else if first < each {
      FirstTooShort(cut, first, rest, each);
    } else {
      FirstTooLong(cut, first, rest, each, epochs);
    }
  }

  /** When the first epoch keeps too little there is a next one, and it starts with a mark. */
  lemma {:induction false} CutStartsNext(mask: seq<bool>, epochs: nat, len: nat, missing: nat)
    requires |mask| == Many(epochs, len) && missing > 0
    requires |CutStarts(mask, epochs, len)| >= missing
    ensures CutStarts(mask, epochs, len)[0]
  {
    if epochs > 0 {
      CutStartsPeel(mask, epochs, len);
    }
  }

  lemma {:induction false} FirstTooShort(cut: seq<bool>, first: nat, rest: seq<bool>, each: nat)
    requires first < each < |cut| && cut == ([true] + Nones(first)) + rest && rest != [] && rest[0]
    ensures Kept(cut[1..each + 1]) > 0
  {
    assert cut[1..each + 1][first] == rest[0];
    KeptAt(cut[1..each + 1], first);
  }

  /** When the first epoch keeps too much its surplus is dropped instead of a later mark. */
  lemma {:induction false} FirstTooLong(cut: seq<bool>, first: nat, rest: seq<bool>, each: nat, epochs: nat)
    requires epochs > 0 && first > each && |cut| == Many(epochs, each + 1)
    requires cut == ([true] + Nones(first)) + rest && Kept(rest) == epochs - 1
    ensures Kept(DropStarts(cut[each + 1..], epochs - 1, each)) > 0
  {
    var after := cut[each + 1..];
    MarksLeft(after, epochs - 1, each);
    assert after == Nones(first - each) + rest;
    NoneKept(Nones(first - each));
    KeptConcat(Nones(first - each), rest);
  }

  lemma {:induction false} DropField<T>(column: seq<T>, epochs: nat, len: nat)
    requires |column| == Many(epochs, len + 1)
    ensures DropStarts(AsField(column), epochs, len) == AsField(DropStarts(column, epochs, len))
  {
    var field := AsField(column);
    forall p: nat | p < Many(epochs, len)
      ensures DropStarts(field, epochs, len)[p] == AsField(DropStarts(column, epochs, len))[p]
    {
      StepLength(p, len, epochs);
      RowBounds(p, len, epochs);
    }
  }

  lemma {:induction false} ManyDivides(epochs: nat, len: nat)
    requires epochs > 0
    ensures Many(epochs, len) % epochs == 0 && Many(epochs, len) / epochs == len
    ensures Many(epochs, len + 1) == Many(epochs, len) + epochs
  {
    ManyTimes(epochs, len);
    ManyTimes(epochs, len + 1);
    SuccTimes(len, epochs);
    DivModUnique(Many(epochs, len), len, 0, epochs);
  }

  lemma {:induction false} FieldMaskOfEpochs(mask: seq<bool>, epochs: nat, len: nat)
    requires epochs > 0 && |mask| == Many(epochs, len)
    ensures FieldMask(Many(epochs, len + 1), mask) == Ok(RowMask(Many(epochs, len + 1), mask, len))
  {
    ManyDivides(epochs, len);
  }

  /** Flattening a done flag column drops its start rows. */
  lemma {:induction false} FlatDonesOfField<T>(cut: seq<T>, epochs: nat, each: nat)
    requires epochs > 0 && |cut| == Many(epochs, each + 1)
    ensures FlatDones(AsField(cut), Many(epochs, each)) == Ok(DropStarts(cut, epochs, each))
  {
    ManyDivides(epochs, each);
    DropField(cut, epochs, each);
    FlattenField(DropStarts(cut, epochs, each));
  }

  /** What is cut from column `col` of a done flag, for `epochs` epochs of `len` steps. */
  function CutDones<T>(col: seq<T>, mask: seq<bool>, epochs: nat, len: nat): (r: seq<T>)
    requires epochs > 0 && |mask| == Many(epochs, len) && |col| == Many(epochs, len + 1)
    ensures |r| == Kept(mask) + epochs
  {
    FieldMaskOfEpochs(mask, epochs, len);
    CutLength(col, mask, epochs, len);
    Select(col, FieldMask(|col|, mask).value)
  }

  lemma {:induction false} CutLength<T>(col: seq<T>, mask: seq<bool>, epochs: nat, len: nat)
    requires |mask| == Many(epochs, len) && |col| == Many(epochs, len + 1)
    ensures |Select(col, RowMask(|col|, mask, len))| == Kept(mask) + epochs
  {
    KeptRows(mask, epochs, len);
    SelectLength(col, RowMask(|col|, mask, len));
  }

  /** Flattening what was cut is cutting what was flattened. */
  ghost predicate Commutes<T>(col: seq<T>, mask: seq<bool>, epochs: nat, len: nat)
    requires epochs > 0 && |mask| == Many(epochs, len) && |col| == Many(epochs, len + 1)
  {
    FlatDones(AsField(CutDones(col, mask, epochs, len)), Kept(mask)) == Ok(Select(DropStarts(col, epochs, len), mask))
  }

  /** Flattening the cut done flags fails exactly when the kept steps do not divide into the epochs. */
  lemma {:induction false} FlatteningFailsExactly<T>(col: seq<T>, mask: seq<bool>, epochs: nat, len: nat)
    requires epochs > 0 && |mask| == Many(epochs, len) && |col| == Many(epochs, len + 1)
    ensures FlatDones(AsField(CutDones(col, mask, epochs, len)), Kept(mask)).Err? <==> Kept(mask) % epochs != 0
  {
    assert |AsField(CutDones(col, mask, epochs, len))| - Kept(mask) == epochs;
  }

  lemma {:induction false} EvenCommutes<T>(col: seq<T>, mask: seq<bool>, epochs: nat, len: nat, each: nat)
    requires epochs > 0 && |mask| == Many(epochs, len) && |col| == Many(epochs, len + 1)
    requires EvenlyKept(mask, epochs, len, each)
    ensures Commutes(col, mask, epochs, len)
  {
    EvenTotal(mask, epochs, len, each);
    FieldMaskOfEpochs(mask, epochs, len);
    EvenCut(col, mask, epochs, len, each);
    FlatDonesOfField(CutDones(col, mask, epochs, len), epochs, each);
  }

  lemma {:induction false} StartsCommuteOnlyIfEven(mask: seq<bool>, epochs: nat, len: nat) returns (each: nat)
    requires epochs > 0 && |mask| == Many(epochs, len)
    requires Commutes(Starts(epochs, len), mask, epochs, len)
    ensures EvenlyKept(mask, epochs, len, each)
  {
    var col := Starts(epochs, len);
    FlatteningFailsExactly(col, mask, epochs, len);
    each := Kept(mask) / epochs;
    EpochShape(Kept(mask), epochs);
    FieldMaskOfEpochs(mask, epochs, len);
    FlatDonesOfField(CutDones(col, mask, epochs, len), epochs, each);
    NoStartsAmongSteps(epochs, len);
    MarksOut(DropStarts(col, epochs, len), mask);
    StartsGoneOnlyIfEven(mask, epochs, len, each);
  }

  ghost predicate Even(mask: seq<bool>, epochs: nat, len: nat)
    requires |mask| == Many(epochs, len)
  {
    exists each: nat :: EvenlyKept(mask, epochs, len, each)
  }

  ghost predicate AllCommute(mask: seq<bool>, epochs: nat, len: nat)
    requires epochs > 0 && |mask| == Many(epochs, len)
  {
    forall col: seq<bool> :: |col| == Many(epochs, len + 1) ==> Commutes(col, mask, epochs, len)
  }

  lemma {:induction false} EvenAllCommute(mask: seq<bool>, epochs: nat, len: nat)
    requires epochs > 0 && |mask| == Many(epochs, len) && Even(mask, epochs, len)
    ensures AllCommute(mask, epochs, len)
  {
    var each: nat :| EvenlyKept(mask, epochs, len, each);
    forall col: seq<bool> | |col| == Many(epochs, len + 1) ensures Commutes(col, mask, epochs, len) {
      EvenCommutes(col, mask, epochs, len, each);
    }
  }

  /** Cutting and flattening commute for every column exactly when every epoch keeps equally many steps. */
  lemma {:induction false} CommutesExactly(mask: seq<bool>, epochs: nat, len: nat)
    requires epochs > 0 && |mask| == Many(epochs, len)
    ensures Even(mask, epochs, len) <==> AllCommute(mask, epochs, len)
  {
    if Even(mask, epochs, len) {
      EvenAllCommute(mask, epochs, len);
    }
    if AllCommute(mask, epochs, len) {
      var starts := Starts(epochs, len);
      assert Commutes(starts, mask, epochs, len);
      var each := StartsCommuteOnlyIfEven(mask, epochs, len);
    }
  }

  /** One epoch always keeps as many steps as itself. */
  lemma {:induction false} OneEpochCommutes<T>(col: seq<T>, mask: seq<bool>)
    requires |col| == |mask| + 1
    ensures Many(1, |mask|) == |mask| && Many(1, |mask| + 1) == |mask| + 1
    ensures Commutes(col, mask, 1, |mask|)
  {
    assert Many(0, |mask|) == 0 && Many(0, |mask| + 1) == 0;
    assert mask[..|mask|] == mask;
    EvenCommutes(col, mask, 1, |mask|, Kept(mask));
  }

  /** Two epochs of one step, of which the first is cut out: flattening its three done flags fails. */
  lemma {:induction false} UnevenEpochsFail(col: seq<bool>, mask: seq<bool>)
    requires mask == [true, false] && |col| == 4
    ensures Many(2, 1) == 2 && Many(2, 2) == 4
    ensures FlatDones(AsField(CutDones(col, mask, 2, 1)), Kept(mask)) == Err(AssertionError)
  {
    assert Many(1, 1) == 1 && Many(1, 2) == 2;
    assert mask[1..] == [false] && mask[1..][1..] == [];
    assert Kept(mask[1..][1..]) == 0 && Kept(mask[1..]) == 0;
    assert Kept(mask) == 1;
    FlatteningFailsExactly(col, mask, 2, 1);
  }
}
