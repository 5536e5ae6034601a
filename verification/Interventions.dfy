/**
 Extracting the intervened segments of a trajectory: one segment for every environment that was
 intervened in, holding the selected steps of every field.
*/
module Interventions {
  import opened Outcomes
  import opened Extraction

  /** A tensor: rows over time, one entry per environment in a row. */
  type Field<T> = seq<seq<T>>

  datatype Mode = AnyFlag | AllFlags | OtherMode

  /**
   A trajectory. `steps` holds the fields with one row per step (actions, rewards, log-probabilities,
   values, forward inputs and observations); the done flags may have start rows.
  */
  datatype Trajectory<T> = Trajectory(
    flags: Option<Field<seq<bool>>>,
    steps: seq<Option<Field<T>>>,
    terminations: Option<Field<bool>>,
    truncations: Option<Field<bool>>,
    dones: Option<Field<bool>>)

  ghost predicate WideIfAny<T>(x: Option<Field<T>>, envs: nat) {
    x.Some? ==> Wide(x.value, envs)
  }

  /** Every tensor has the same environments. */
  ghost predicate Rectangular<T>(t: Trajectory<T>, envs: nat) {
    && WideIfAny(t.flags, envs)
    && (forall k :: 0 <= k < |t.steps| ==> WideIfAny(t.steps[k], envs))
    && WideIfAny(t.terminations, envs) && WideIfAny(t.truncations, envs) && WideIfAny(t.dones, envs)
  }

  // ---------------------------------------------------------------- the step mask

  predicate Any(flags: seq<bool>) {
    exists k :: 0 <= k < |flags| && flags[k]
  }

  predicate All(flags: seq<bool>) {
    forall k :: 0 <= k < |flags| ==> flags[k]
  }

  predicate Flagged(flags: Field<seq<bool>>) {
    exists t :: 0 <= t < |flags| && FlaggedRow(flags[t])
  }

  predicate FlaggedRow(row: seq<seq<bool>>) {
    exists e :: 0 <= e < |row| && Any(row[e])
  }

  function MaskRow(row: seq<seq<bool>>, every: bool): (r: seq<bool>)
    ensures |r| == |row|
  {
    seq(|row|, e requires 0 <= e < |row| => if every then All(row[e]) else Any(row[e]))
  }

  /** `intervene_flags.any(dim=-1)` or `.all(dim=-1)`. */
  function StepMask(flags: Field<seq<bool>>, every: bool): (r: Field<bool>)
    ensures |r| == |flags|
  {
    seq(|flags|, t requires 0 <= t < |flags| => MaskRow(flags[t], every))
  }

  lemma {:induction false} MaskWide(flags: Field<seq<bool>>, every: bool, envs: nat)
    requires Wide(flags, envs)
    ensures Wide(StepMask(flags, every), envs)
  {
  }

  // ---------------------------------------------------------------- one environment

  function CutField<T>(x: Field<T>, i: nat, envs: nat, mask: seq<bool>): (r: Result<Field<T>>)
    requires Wide(x, envs) && i < envs
  {
    if |x| != |mask| then Err(IndexError) else Ok(AsField(Select(Column(x, i), mask)))
  }

  function CutStep<T>(x: Option<Field<T>>, i: nat, envs: nat, mask: seq<bool>): (r: Result<Option<Field<T>>>)
    requires WideIfAny(x, envs) && i < envs
  {
    if x.None? then Ok(None)
    else
      var cut := CutField(x.value, i, envs, mask);
      if cut.Err? then Err(cut.error) else Ok(Some(cut.value))
  }

  function CutSteps<T>(xs: seq<Option<Field<T>>>, i: nat, envs: nat, mask: seq<bool>):
      (r: Result<seq<Option<Field<T>>>>)
    requires forall k :: 0 <= k < |xs| ==> WideIfAny(xs[k], envs)
    requires i < envs
  {
    if xs == [] then Ok([])
    else
      var first := CutStep(xs[0], i, envs, mask);
      if first.Err? then Err(first.error)
      else
        var rest := CutSteps(xs[1..], i, envs, mask);
        if rest.Err? then rest else Ok([first.value] + rest.value)
  }

  /** A done flag cut by the field mask; a missing one cannot be sliced. */
  function CutFlag(x: Option<Field<bool>>, i: nat, envs: nat, mask: seq<bool>): (r: Result<Field<bool>>)
    requires WideIfAny(x, envs) && i < envs
  {
    if x.None? then Err(TypeError) else CutField(x.value, i, envs, mask)
  }

  datatype Ends = Ends(terminations: Option<Field<bool>>, truncations: Option<Field<bool>>,
                       dones: Option<Field<bool>>)

  /** The done flags of environment i, by the mask the terminations call for. */
  function CutEnds<T>(t: Trajectory<T>, i: nat, envs: nat, mask: seq<bool>): (r: Result<Ends>)
    requires Rectangular(t, envs) && i < envs
  {
    if t.terminations.None? then Ok(Ends(None, None, None))
    else
      var fieldMask := FieldMask(|t.terminations.value|, mask);
      if fieldMask.Err? then Err(fieldMask.error)
      else
        var terminations := AsField(Select(Column(t.terminations.value, i), fieldMask.value));
        var truncations := CutFlag(t.truncations, i, envs, fieldMask.value);
        var dones := CutFlag(t.dones, i, envs, fieldMask.value);
        if truncations.Err? then Err(truncations.error)
        else if dones.Err? then Err(dones.error)
        else Ok(Ends(Some(terminations), Some(truncations.value), Some(dones.value)))
  }

  /** The segment of environment i. */
  function Cut<T>(t: Trajectory<T>, i: nat, envs: nat, mask: seq<bool>): (r: Result<Trajectory<T>>)
    requires Rectangular(t, envs) && i < envs
  {
    var steps := CutSteps(t.steps, i, envs, mask);
    if steps.Err? then Err(steps.error)
    else
      var flags := CutStep(t.flags, i, envs, mask);
      if flags.Err? then Err(flags.error)
      else
        var ends := CutEnds(t, i, envs, mask);
        if ends.Err? then Err(ends.error)
        else
          Ok(Trajectory(flags.value, steps.value, ends.value.terminations, ends.value.truncations, ends.value.dones))
  }

  method CutEnvironment<T>(t: Trajectory<T>, i: nat, envs: nat, mask: seq<bool>)
    returns (r: Result<Trajectory<T>>)
    requires Rectangular(t, envs) && i < envs
    ensures r == Cut(t, i, envs, mask)
  {
    var steps := CutSteps(t.steps, i, envs, mask);
    if steps.Err? {
      return Err(steps.error);
    }
    var flags := CutStep(t.flags, i, envs, mask);
    if flags.Err? {
      return Err(flags.error);
    }
    if t.terminations.None? {
      return Ok(Trajectory(flags.value, steps.value, None, None, None));
    }
    var fieldMask := GenerateFieldMask(|t.terminations.value|, mask);
    if fieldMask.Err? {
      return Err(fieldMask.error);
    }
    var terminations := AsField(Select(Column(t.terminations.value, i), fieldMask.value));
    var truncations := CutFlag(t.truncations, i, envs, fieldMask.value);
    if truncations.Err? {
      return Err(truncations.error);
    }
    var dones := CutFlag(t.dones, i, envs, fieldMask.value);
    if dones.Err? {
      return Err(dones.error);
    }
    r := Ok(Trajectory(flags.value, steps.value, Some(terminations), Some(truncations.value), Some(dones.value)));
  }

  // ---------------------------------------------------------------- all environments

  /** The environments before n with a selected step, in order. */
  function Touched(mask: Field<bool>, envs: nat, n: nat): (r: seq<nat>)
    requires Wide(mask, envs) && n <= envs
    ensures forall k :: 0 <= k < |r| ==> r[k] < n
  {
    if n == 0 then []
    else
      var before := Touched(mask, envs, n - 1);
      if Any(Column(mask, n - 1)) then before + [n - 1] else before
  }

  /** The segments of the given environments, up to the first failure. */
  function CutAll<T>(t: Trajectory<T>, mask: Field<bool>, envs: nat, touched: seq<nat>):
      (r: Result<seq<Trajectory<T>>>)
    requires Rectangular(t, envs) && Wide(mask, envs)
    requires forall k :: 0 <= k < |touched| ==> touched[k] < envs
  {
    if touched == [] then Ok([])
    else
      var before := CutAll(t, mask, envs, touched[..|touched| - 1]);
      if before.Err? then before
      else
        var i := touched[|touched| - 1];
        var cut := Cut(t, i, envs, Column(mask, i));
        if cut.Err? then Err(cut.error) else Ok(before.value + [cut.value])
  }

  function Extract<T>(t: Trajectory<T>, envs: nat, mode: Mode): (r: Result<Option<seq<Trajectory<T>>>>)
    requires Rectangular(t, envs)
  {
    if t.flags.None? || !Flagged(t.flags.value) then Ok(None)
    else if mode.OtherMode? then Err(NotImplementedError)
    else
      MaskWide(t.flags.value, mode.AllFlags?, envs);
      var mask := StepMask(t.flags.value, mode.AllFlags?);
      var cuts := CutAll(t, mask, envs, Touched(mask, envs, envs));
      if cuts.Err? then Err(cuts.error) else Ok(Some(cuts.value))
  }

  /** `extract_intervene_traj`. */
  method ExtractInterveneTraj<T>(t: Trajectory<T>, envs: nat, mode: Mode)
    returns (r: Result<Option<seq<Trajectory<T>>>>)
    requires Rectangular(t, envs)
    ensures r == Extract(t, envs, mode)
  {
    if t.flags.None? || !Flagged(t.flags.value) {
      return Ok(None);
    }
    if mode.OtherMode? {
      return Err(NotImplementedError);
    }
    MaskWide(t.flags.value, mode.AllFlags?, envs);
    var mask := StepMask(t.flags.value, mode.AllFlags?);
    var cuts := CutTouched(t, mask, envs);
    r := if cuts.Err? then Err(cuts.error) else Ok(Some(cuts.value));
  }

  method CutTouched<T>(t: Trajectory<T>, mask: Field<bool>, envs: nat) returns (r: Result<seq<Trajectory<T>>>)
    requires Rectangular(t, envs) && Wide(mask, envs)
    ensures r == CutAll(t, mask, envs, Touched(mask, envs, envs))
  {
    var filtered: seq<Trajectory<T>> := [];
    for i := 0 to envs
      invariant CutAll(t, mask, envs, Touched(mask, envs, i)) == Ok(filtered)
    {
      if Any(Column(mask, i)) {
        var cut := CutEnvironment(t, i, envs, Column(mask, i));
        CutNext(t, mask, envs, Touched(mask, envs, i), i);
        if cut.Err? {
          CutStops(t, mask, envs, i + 1, envs);
          return Err(cut.error);
        }
        filtered := filtered + [cut.value];
      }
    }
    r := Ok(filtered);
  }

  lemma {:induction false} CutNext<T>(t: Trajectory<T>, mask: Field<bool>, envs: nat, touched: seq<nat>, i: nat)
    requires Rectangular(t, envs) && Wide(mask, envs) && i < envs
    requires forall k :: 0 <= k < |touched| ==> touched[k] < envs
    requires CutAll(t, mask, envs, touched).Ok?
    ensures CutAll(t, mask, envs, touched + [i]) ==
      var cut := Cut(t, i, envs, Column(mask, i));
      if cut.Err? then Err(cut.error) else Ok(CutAll(t, mask, envs, touched).value + [cut.value])
  {
    assert (touched + [i])[..|touched|] == touched;
  }

  lemma {:induction false} CutStops<T>(t: Trajectory<T>, mask: Field<bool>, envs: nat, n: nat, last: nat)
    requires Rectangular(t, envs) && Wide(mask, envs) && n <= last <= envs
    requires CutAll(t, mask, envs, Touched(mask, envs, n)).Err?
    ensures CutAll(t, mask, envs, Touched(mask, envs, last)) == CutAll(t, mask, envs, Touched(mask, envs, n))
  {
    if n < last {
      CutStops(t, mask, envs, n, last - 1);
      var before := Touched(mask, envs, last - 1);
      if Any(Column(mask, last - 1)) {
        assert (before + [last - 1])[..|before|] == before;
      }
    }
  }

  // ---------------------------------------------------------------- what the segments hold

  /** Exactly the environments with a selected step are visited. */
  lemma {:induction false} TouchedExactly(mask: Field<bool>, envs: nat, n: nat, i: nat)
    requires Wide(mask, envs) && i < envs && n <= envs
    ensures i in Touched(mask, envs, n) <==> i < n && Any(Column(mask, i))
  {
    if n > 0 {
      TouchedExactly(mask, envs, n - 1, i);
    }
  }

  /** Environments are visited in rising order. */
  lemma {:induction false} TouchedRises(mask: Field<bool>, envs: nat, n: nat, j: nat, k: nat)
    requires Wide(mask, envs) && n <= envs && j < k < |Touched(mask, envs, n)|
    ensures Touched(mask, envs, n)[j] < Touched(mask, envs, n)[k]
  {
    if k < |Touched(mask, envs, n - 1)| {
      TouchedRises(mask, envs, n - 1, j, k);
    }
  }

  /** The k-th segment is cut from the k-th environment with a selected step. */
  lemma {:induction false} SegmentOf<T>(t: Trajectory<T>, mask: Field<bool>, envs: nat, touched: seq<nat>, k: nat)
    requires Rectangular(t, envs) && Wide(mask, envs)
    requires forall k :: 0 <= k < |touched| ==> touched[k] < envs
    requires CutAll(t, mask, envs, touched).Ok? && k < |touched|
    ensures |CutAll(t, mask, envs, touched).value| == |touched|
    ensures Cut(t, touched[k], envs, Column(mask, touched[k])) == Ok(CutAll(t, mask, envs, touched).value[k])
  {
    var last := |touched| - 1;
    if k < last {
      SegmentOf(t, mask, envs, touched[..last], k);
    } else if last > 0 {
      SegmentOf(t, mask, envs, touched[..last], 0);
    }
  }

  /** The fields an environment can be cut from: the right length, and end flags of one shape. */
  predicate Cuttable<T>(t: Trajectory<T>, steps: nat) {
    && (forall k :: 0 <= k < |t.steps| ==> LengthIfAny(t.steps[k], steps))
    && LengthIfAny(t.flags, steps)
    && (t.terminations.Some? ==>
          var rows := |t.terminations.value|;
          && (rows == steps || (rows > steps && steps % (rows - steps) == 0))
          && t.truncations.Some? && |t.truncations.value| == rows
          && t.dones.Some? && |t.dones.value| == rows)
  }

  predicate LengthIfAny<T>(x: Option<Field<T>>, steps: nat) {
    x.Some? ==> |x.value| == steps
  }

  lemma {:induction false} StepsCutExactly<T>(xs: seq<Option<Field<T>>>, i: nat, envs: nat, mask: seq<bool>)
    requires forall k :: 0 <= k < |xs| ==> WideIfAny(xs[k], envs)
    requires i < envs
    ensures CutSteps(xs, i, envs, mask).Ok? <==> (forall k :: 0 <= k < |xs| ==> LengthIfAny(xs[k], |mask|))
    ensures CutSteps(xs, i, envs, mask).Ok? ==> |CutSteps(xs, i, envs, mask).value| == |xs|
  {
    if xs != [] {
      StepsCutExactly(xs[1..], i, envs, mask);
      if !LengthIfAny(xs[0], |mask|) {
        assert CutSteps(xs, i, envs, mask).Err?;
      } else {
        assert xs == [xs[0]] + xs[1..];
      }
    }
  }

  /** Cutting fails exactly on fields of the wrong shape, whatever the environment and its mask. */
  lemma {:induction false} CutExactly<T>(t: Trajectory<T>, i: nat, envs: nat, mask: seq<bool>)
    requires Rectangular(t, envs) && i < envs
    ensures Cut(t, i, envs, mask).Ok? <==> Cuttable(t, |mask|)
  {
    StepsCutExactly(t.steps, i, envs, mask);
  }

  lemma {:induction false} StepCut<T>(xs: seq<Option<Field<T>>>, i: nat, envs: nat, mask: seq<bool>, k: nat)
    requires forall k :: 0 <= k < |xs| ==> WideIfAny(xs[k], envs)
    requires i < envs && CutSteps(xs, i, envs, mask).Ok? && k < |xs|
    ensures |CutSteps(xs, i, envs, mask).value| == |xs|
    ensures CutStep(xs[k], i, envs, mask) == Ok(CutSteps(xs, i, envs, mask).value[k])
  {
    StepsCutExactly(xs, i, envs, mask);
    if k > 0 {
      StepCut(xs[1..], i, envs, mask, k - 1);
    }
  }

  /** Flattening a segment's actions, rewards or observations selects from the flattened originals. */
  lemma {:induction false} StepsCommute<T>(t: Trajectory<T>, i: nat, envs: nat, mask: seq<bool>, k: nat)
    requires Rectangular(t, envs) && i < envs && Cut(t, i, envs, mask).Ok? && k < |t.steps|
    ensures |Cut(t, i, envs, mask).value.steps| == |t.steps|
    ensures Cut(t, i, envs, mask).value.steps[k].Some? <==> t.steps[k].Some?
    ensures t.steps[k].Some? ==> |FlatRows(t.steps[k].value)| == |mask| * envs
    ensures t.steps[k].Some? ==>
      FlatRows(Cut(t, i, envs, mask).value.steps[k].value)
      == Select(FlatColumn(FlatRows(t.steps[k].value), envs, i, |mask|), mask)
  {
    StepCut(t.steps, i, envs, mask, k);
    if t.steps[k].Some? {
      var x := t.steps[k].value;
      FlatColumnIsColumn(x, envs, i);
      FlattenField(Select(Column(x, i), mask));
    }
  }

  /** Dropping the start rows of all environments is dropping them in each. */
  lemma {:induction false} DropColumn<T>(x: Field<T>, envs: nat, i: nat, epochs: nat, len: nat)
    requires Wide(x, envs) && i < envs && |x| == Many(epochs, len + 1)
    ensures Wide(DropStarts(x, epochs, len), envs)
    ensures Column(DropStarts(x, epochs, len), i) == DropStarts(Column(x, i), epochs, len)
  {
    var less := DropStarts(x, epochs, len);
    forall p: nat | p < Many(epochs, len)
      ensures |less[p]| == envs && less[p][i] == DropStarts(Column(x, i), epochs, len)[p]
    {
      StepLength(p, len, epochs);
      RowBounds(p, len, epochs);
    }
  }

  /** Environment i of a flattened done flag is its column without the start rows. */
  lemma {:induction false} FlatDonesColumn<T>(x: Field<T>, envs: nat, i: nat, epochs: nat, len: nat)
    requires Wide(x, envs) && i < envs && epochs > 0 && |x| == Many(epochs, len + 1)
    ensures FlatDones(x, Many(epochs, len)).Ok?
    ensures |FlatDones(x, Many(epochs, len)).value| == Many(epochs, len) * envs
    ensures FlatColumn(FlatDones(x, Many(epochs, len)).value, envs, i, Many(epochs, len))
      == DropStarts(Column(x, i), epochs, len)
  {
    ManyDivides(epochs, len);
    DropColumn(x, envs, i, epochs, len);
    FlatColumnIsColumn(DropStarts(x, epochs, len), envs, i);
  }

  /** The done flags of a segment are cut by the field mask of its epochs. */
  lemma {:induction false} EndsOfSegment<T>(t: Trajectory<T>, i: nat, envs: nat, mask: seq<bool>, epochs: nat, len: nat)
    requires Rectangular(t, envs) && i < envs && Cut(t, i, envs, mask).Ok?
    requires epochs > 0 && |mask| == Many(epochs, len)
    requires t.terminations.Some? && |t.terminations.value| == Many(epochs, len + 1)
    ensures t.truncations.Some? && |t.truncations.value| == Many(epochs, len + 1)
    ensures t.dones.Some? && |t.dones.value| == Many(epochs, len + 1)
    ensures var segment := Cut(t, i, envs, mask).value;
      && segment.terminations == Some(AsField(CutDones(Column(t.terminations.value, i), mask, epochs, len)))
      && segment.truncations == Some(AsField(CutDones(Column(t.truncations.value, i), mask, epochs, len)))
      && segment.dones == Some(AsField(CutDones(Column(t.dones.value, i), mask, epochs, len)))
  {
    FieldMaskOfEpochs(mask, epochs, len);
  }

  /** Flattening a segment's done flags selects from the flattened originals. */
  ghost predicate FlagCommutes(whole: Option<Field<bool>>, segment: Option<Field<bool>>, envs: nat, i: nat,
        mask: seq<bool>)
    requires i < envs
  {
    && whole.Some? && segment.Some?
    && FlatDones(whole.value, |mask|).Ok? && |FlatDones(whole.value, |mask|).value| == |mask| * envs
    && FlatDones(segment.value, Kept(mask))
      == Ok(Select(FlatColumn(FlatDones(whole.value, |mask|).value, envs, i, |mask|), mask))
  }

  /** Extraction and flattening commute for every field of a trajectory of one epoch. */
  lemma {:induction false} OneEpochExtraction<T>(t: Trajectory<T>, i: nat, envs: nat, mask: seq<bool>)
    requires Rectangular(t, envs) && i < envs && Cut(t, i, envs, mask).Ok?
    requires t.terminations.Some? && |t.terminations.value| == |mask| + 1
    ensures FlagCommutes(t.terminations, Cut(t, i, envs, mask).value.terminations, envs, i, mask)
    ensures FlagCommutes(t.truncations, Cut(t, i, envs, mask).value.truncations, envs, i, mask)
    ensures FlagCommutes(t.dones, Cut(t, i, envs, mask).value.dones, envs, i, mask)
  {
    assert Many(0, |mask|) == 0 && Many(0, |mask| + 1) == 0;
    assert Kept(mask[..|mask|]) == Kept(mask) by { assert mask[..|mask|] == mask; }
    EvenEpochsExtraction(t, i, envs, mask, 1, |mask|, Kept(mask));
  }

  /** And of any number of epochs that keep equally many steps each. */
  lemma {:induction false} EvenEpochsExtraction<T>(t: Trajectory<T>, i: nat, envs: nat, mask: seq<bool>, epochs: nat,
        len: nat, each: nat)
    requires Rectangular(t, envs) && i < envs && Cut(t, i, envs, mask).Ok?
    requires epochs > 0 && |mask| == Many(epochs, len) && EvenlyKept(mask, epochs, len, each)
    requires t.terminations.Some? && |t.terminations.value| == Many(epochs, len + 1)
    ensures FlagCommutes(t.terminations, Cut(t, i, envs, mask).value.terminations, envs, i, mask)
    ensures FlagCommutes(t.truncations, Cut(t, i, envs, mask).value.truncations, envs, i, mask)
    ensures FlagCommutes(t.dones, Cut(t, i, envs, mask).value.dones, envs, i, mask)
  {
    EndsOfSegment(t, i, envs, mask, epochs, len);
    FlagOfEpochs(t.terminations.value, i, envs, mask, epochs, len, each);
    FlagOfEpochs(t.truncations.value, i, envs, mask, epochs, len, each);
    FlagOfEpochs(t.dones.value, i, envs, mask, epochs, len, each);
  }

  lemma {:induction false} FlagOfEpochs(x: Field<bool>, i: nat, envs: nat, mask: seq<bool>, epochs: nat, len: nat,
        each: nat)
    requires Wide(x, envs) && i < envs
    requires epochs > 0 && |mask| == Many(epochs, len) && EvenlyKept(mask, epochs, len, each)
    requires |x| == Many(epochs, len + 1)
    ensures FlagCommutes(Some(x), Some(AsField(CutDones(Column(x, i), mask, epochs, len))), envs, i, mask)
  {
    EvenCommutes(Column(x, i), mask, epochs, len, each);
    FlatDonesColumn(x, envs, i, epochs, len);
  }

  /** Without start rows a done flag is cut and flattened like any other field. */
  lemma {:induction false} PlainDones(x: Field<bool>, i: nat, envs: nat, mask: seq<bool>)
    requires Wide(x, envs) && i < envs && |x| == |mask|
    ensures CutFlag(Some(x), i, envs, FieldMask(|x|, mask).value).Ok?
    ensures FlagCommutes(Some(x), Some(CutFlag(Some(x), i, envs, FieldMask(|x|, mask).value).value), envs, i, mask)
  {
    FlatColumnIsColumn(x, envs, i);
    SelectLength(Column(x, i), mask);
    FlattenField(Select(Column(x, i), mask));
  }

  /** Row j of the cut field, if there is one, is environment i's row of step p. */
  ghost predicate RowFrom<T>(whole: Option<Field<T>>, segment: Option<Field<T>>, i: nat, p: nat, j: nat) {
    && (whole.Some? <==> segment.Some?)
    && (whole.Some? ==>
          && p < |whole.value| && i < |whole.value[p]|
          && j < |segment.value| && segment.value[j] == [whole.value[p][i]])
  }

  /** A selected step's row of every step field and of the flags stands behind those of the selected steps before it. */
  lemma {:induction false} SegmentRow<T>(t: Trajectory<T>, i: nat, envs: nat, mask: seq<bool>, p: nat)
    requires Rectangular(t, envs) && i < envs && Cut(t, i, envs, mask).Ok? && p < |mask| && mask[p]
    ensures |Cut(t, i, envs, mask).value.steps| == |t.steps|
    ensures forall k :: 0 <= k < |t.steps| ==>
      RowFrom(t.steps[k], Cut(t, i, envs, mask).value.steps[k], i, p, Kept(mask[..p]))
    ensures RowFrom(t.flags, Cut(t, i, envs, mask).value.flags, i, p, Kept(mask[..p]))
  {
    StepsCutExactly(t.steps, i, envs, mask);
    forall k | 0 <= k < |t.steps|
      ensures RowFrom(t.steps[k], Cut(t, i, envs, mask).value.steps[k], i, p, Kept(mask[..p]))
    {
      StepCut(t.steps, i, envs, mask, k);
      if t.steps[k].Some? {
        SelectedAt(Column(t.steps[k].value, i), mask, p);
      }
    }
    if t.flags.Some? {
      SelectedAt(Column(t.flags.value, i), mask, p);
    }
  }

  /** And a segment has no other rows. */
  lemma {:induction false} SegmentLength<T>(t: Trajectory<T>, i: nat, envs: nat, mask: seq<bool>)
    requires Rectangular(t, envs) && i < envs && Cut(t, i, envs, mask).Ok?
    ensures |Cut(t, i, envs, mask).value.steps| == |t.steps|
    ensures forall k :: 0 <= k < |t.steps| ==> LengthIfAny(Cut(t, i, envs, mask).value.steps[k], Kept(mask))
    ensures LengthIfAny(Cut(t, i, envs, mask).value.flags, Kept(mask))
  {
    StepsCutExactly(t.steps, i, envs, mask);
    forall k | 0 <= k < |t.steps|
      ensures LengthIfAny(Cut(t, i, envs, mask).value.steps[k], Kept(mask))
    {
      StepCut(t.steps, i, envs, mask, k);
      if t.steps[k].Some? {
        SelectLength(Column(t.steps[k].value, i), mask);
      }
    }
    if t.flags.Some? {
      SelectLength(Column(t.flags.value, i), mask);
    }
  }

  // ---------------------------------------------------------------- the whole extraction

  /** One segment for every environment with a selected step, in order. */
  lemma {:induction false} ExtractsEveryIntervention<T>(t: Trajectory<T>, envs: nat, mode: Mode, k: nat)
    returns (mask: Field<bool>, i: nat)
    requires Rectangular(t, envs) && Extract(t, envs, mode).Ok? && Extract(t, envs, mode).value.Some?
    requires k < |Extract(t, envs, mode).value.value|
    ensures t.flags.Some? && mask == StepMask(t.flags.value, mode.AllFlags?) && Wide(mask, envs)
    ensures |Extract(t, envs, mode).value.value| == |Touched(mask, envs, envs)|
    ensures i == Touched(mask, envs, envs)[k] && i < envs && Any(Column(mask, i))
    ensures forall j :: 0 <= j < k ==> Touched(mask, envs, envs)[j] < i
    ensures Cut(t, i, envs, Column(mask, i)) == Ok(Extract(t, envs, mode).value.value[k])
  {
    MaskWide(t.flags.value, mode.AllFlags?, envs);
    mask := StepMask(t.flags.value, mode.AllFlags?);
    var touched := Touched(mask, envs, envs);
    CutCount(t, mask, envs, touched);
    SegmentOf(t, mask, envs, touched, k);
    i := touched[k];
    TouchedExactly(mask, envs, envs, i);
    forall j | 0 <= j < k ensures touched[j] < i {
      TouchedRises(mask, envs, envs, j, k);
    }
  }

  lemma {:induction false} CutCount<T>(t: Trajectory<T>, mask: Field<bool>, envs: nat, touched: seq<nat>)
    requires Rectangular(t, envs) && Wide(mask, envs)
    requires forall k :: 0 <= k < |touched| ==> touched[k] < envs
    requires CutAll(t, mask, envs, touched).Ok?
    ensures |CutAll(t, mask, envs, touched).value| == |touched|
  {
    if touched != [] {
      SegmentOf(t, mask, envs, touched, 0);
    }
  }

  /** Extraction fails exactly for an unknown mode or when there is something to cut from ill-shaped fields. */
  lemma {:induction false} ExtractFailsExactly<T>(t: Trajectory<T>, envs: nat, mode: Mode)
    requires Rectangular(t, envs) && t.flags.Some? && Flagged(t.flags.value) && !mode.OtherMode?
    ensures Wide(StepMask(t.flags.value, mode.AllFlags?), envs)
    ensures Extract(t, envs, mode).Err? <==>
      Touched(StepMask(t.flags.value, mode.AllFlags?), envs, envs) != [] && !Cuttable(t, |t.flags.value|)
  {
    MaskWide(t.flags.value, mode.AllFlags?, envs);
    var mask := StepMask(t.flags.value, mode.AllFlags?);
    CutAllExactly(t, mask, envs, Touched(mask, envs, envs));
  }

  lemma {:induction false} CutAllExactly<T>(t: Trajectory<T>, mask: Field<bool>, envs: nat, touched: seq<nat>)
    requires Rectangular(t, envs) && Wide(mask, envs)
    requires forall k :: 0 <= k < |touched| ==> touched[k] < envs
    ensures CutAll(t, mask, envs, touched).Err? <==> touched != [] && !Cuttable(t, |mask|)
  {
    if touched != [] {
      var last := |touched| - 1;
      CutAllExactly(t, mask, envs, touched[..last]);
      CutExactly(t, touched[last], envs, Column(mask, touched[last]));
    }
  }

  /** A step is selected by any of its flags, or only by all of them. */
  ghost predicate Called(flags: seq<bool>, mode: Mode) {
    if mode.AllFlags? then false !in flags else true in flags
  }

  lemma {:induction false} CalledExactly(flags: seq<bool>, mode: Mode)
    ensures (if mode.AllFlags? then All(flags) else Any(flags)) <==> Called(flags, mode)
  {
    if true in flags {
      var k :| 0 <= k < |flags| && flags[k] == true;
      assert flags[k];
    }
    if false in flags {
      var k :| 0 <= k < |flags| && flags[k] == false;
      assert !flags[k];
    }
  }

  /** An environment has a segment exactly if the mode selects one of its steps. */
  lemma {:induction false} VisitedExactly(flags: Field<seq<bool>>, envs: nat, mode: Mode, i: nat)
    requires Wide(flags, envs) && i < envs
    ensures Wide(StepMask(flags, mode.AllFlags?), envs)
    ensures forall s :: 0 <= s < |flags| ==> (StepMask(flags, mode.AllFlags?)[s][i] <==> Called(flags[s][i], mode))
    ensures i in Touched(StepMask(flags, mode.AllFlags?), envs, envs)
      <==> exists s :: 0 <= s < |flags| && Called(flags[s][i], mode)
  {
    MaskWide(flags, mode.AllFlags?, envs);
    var mask := StepMask(flags, mode.AllFlags?);
    TouchedExactly(mask, envs, envs, i);
    forall s | 0 <= s < |flags| ensures mask[s][i] <==> Called(flags[s][i], mode) {
      CalledExactly(flags[s][i], mode);
    }
    if Any(Column(mask, i)) {
      var s :| 0 <= s < |mask| && Column(mask, i)[s];
      assert Called(flags[s][i], mode);
    }
    if s :| 0 <= s < |flags| && Called(flags[s][i], mode) {
      assert Column(mask, i)[s];
    }
  }

  /** There is nothing to extract exactly without a set flag, whatever the mode; otherwise the mode must be known. */
  lemma {:induction false} NothingToExtract<T>(t: Trajectory<T>, envs: nat, mode: Mode)
    requires Rectangular(t, envs)
    ensures Extract(t, envs, mode) == Ok(None)
      <==> t.flags.None? || forall s, e :: 0 <= s < |t.flags.value| && 0 <= e < envs ==> true !in t.flags.value[s][e]
    ensures mode.OtherMode? ==>
      Extract(t, envs, mode) == Ok(None) || Extract(t, envs, mode) == Err(NotImplementedError)
  {
    if t.flags.Some? {
      var flags := t.flags.value;
      if Flagged(flags) {
        var s :| 0 <= s < |flags| && FlaggedRow(flags[s]);
        var e :| 0 <= e < |flags[s]| && Any(flags[s][e]);
        CalledExactly(flags[s][e], AnyFlag);
      }
      if s, e :| 0 <= s < |flags| && 0 <= e < envs && true in flags[s][e] {
        CalledExactly(flags[s][e], AnyFlag);
        assert FlaggedRow(flags[s]);
      }
    }
  }
}
