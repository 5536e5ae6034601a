/**
 Generalised advantage estimation on one environment's steps: the backward recursion equals the
 discounted sum of temporal differences up to the first done, does not look past it, and telescopes
 to discounted rewards plus a bootstrap value when lambda is one. The reshaping around it maps
 chunked tensors to steps and back.
*/
module Advantages {
  import opened Sequences

  // ---------------------------------------------------------------- the recursion

  /** One environment: a reward per step, a value and a done flag per state. */
  datatype Steps = Steps(rewards: seq<real>, values: seq<real>, dones: seq<bool>, gamma: real, lambda: real)

  predicate StepsOk(x: Steps) {
    |x.values| == |x.dones| == |x.rewards| + 1
  }

  function Live(done: bool): real {
    if done then 0.0 else 1.0
  }

  /** The temporal difference of a step. */
  function Delta(x: Steps, t: nat): real
    requires StepsOk(x) && t < |x.rewards|
  {
    x.rewards[t] + x.gamma * x.values[t + 1] * Live(x.dones[t + 1]) - x.values[t]
  }

  /** One backward step from the advantage of the next step. */
  function Backward(x: Steps, t: nat, next: real): real
    requires StepsOk(x) && t < |x.rewards|
  {
    Delta(x, t) + x.gamma * x.lambda * Live(x.dones[t + 1]) * next
  }

  function Gae(x: Steps, t: nat): real
    requires StepsOk(x) && t <= |x.rewards|
    decreases |x.rewards| - t
  {
    if t == |x.rewards| then 0.0 else Backward(x, t, Gae(x, t + 1))
  }

  /** Without a critic gamma and lambda are one and the temporal difference is the reward. */
  function Score(rewards: seq<real>, dones: seq<bool>, t: nat): real
    requires |dones| == |rewards| + 1 && t <= |rewards|
    decreases |rewards| - t
  {
    if t == |rewards| then 0.0 else rewards[t] + Live(dones[t + 1]) * Score(rewards, dones, t + 1)
  }

  /** `compute_gae_advantages_and_returns` with a critic, normalisation off. */
  method ComputeGae(x: Steps) returns (advantages: array<real>, rets: array<real>)
    requires StepsOk(x)
    ensures advantages.Length == rets.Length == |x.rewards|
    ensures forall t :: 0 <= t < |x.rewards| ==> advantages[t] == Gae(x, t) && rets[t] == Gae(x, t) + x.values[t]
  {
    rets := new real[|x.rewards|](_ => 0.0);
    var gae := 0.0;
    for step := |x.rewards| downto 0
      invariant gae == Gae(x, step)
      invariant forall t :: step <= t < |x.rewards| ==> rets[t] == Gae(x, t) + x.values[t]
    {
      gae := Backward(x, step, gae);
      rets[step] := gae + x.values[step];
    }
    advantages := Minus(rets, x.values);
  }

  /** Returns less values, without the bootstrap value. */
  method Minus(a: array<real>, b: seq<real>) returns (r: array<real>)
    requires a.Length <= |b|
    ensures fresh(r) && r.Length == a.Length && forall i :: 0 <= i < a.Length ==> r[i] == a[i] - b[i]
  {
    r := new real[a.Length](_ => 0.0);
    for t := 0 to a.Length
      invariant forall i :: 0 <= i < t ==> r[i] == a[i] - b[i]
    {
      r[t] := a[t] - b[t];
    }
  }

  /** The same without a critic: returns and advantages coincide. */
  method ComputeCriticFree(rewards: seq<real>, dones: seq<bool>) returns (rets: array<real>)
    requires |dones| == |rewards| + 1
    ensures rets.Length == |rewards|
    ensures forall t :: 0 <= t < |rewards| ==> rets[t] == Score(rewards, dones, t)
  {
    rets := new real[|rewards|](_ => 0.0);
    var gae := 0.0;
    for step := |rewards| downto 0
      invariant gae == Score(rewards, dones, step)
      invariant forall t :: step <= t < |rewards| ==> rets[t] == Score(rewards, dones, t)
    {
      gae := rewards[step] + Live(dones[step + 1]) * gae;
      rets[step] := gae;
    }
  }

  /** `calculate_scores` for one environment: the critic-free return of the first step. */
  method CalculateScore(rewards: seq<real>, dones: seq<bool>) returns (score: real)
    requires |dones| == |rewards| + 1
    ensures score == Score(rewards, dones, 0)
  {
    score := 0.0;
    for step := |rewards| downto 0
      invariant score == Score(rewards, dones, step)
    {
      score := score * Live(dones[step + 1]);
      score := score + rewards[step];
    }
  }

  // ---------------------------------------------------------------- the closed form

  function Pow(c: real, n: nat): real {
    if n == 0 then 1.0 else c * Pow(c, n - 1)
  }

  /** The sum of c^(s - t) * f(s) over the steps s from t up to e. */
  function Discounted(f: nat -> real, c: real, t: nat, e: nat): real
    requires t <= e
    decreases e - t
  {
    if t == e then 0.0 else Discounted(f, c, t, e - 1) + Pow(c, e - 1 - t) * f(e - 1)
  }

  /** The first state after step t that is done, or the last state. */
  function Stop(dones: seq<bool>, t: nat): (e: nat)
    requires t + 1 < |dones|
    ensures t < e < |dones| && (dones[e] || e == |dones| - 1)
    ensures forall s :: t < s < e ==> !dones[s]
    decreases |dones| - t
  {
    if dones[t + 1] || t + 2 == |dones| then t + 1 else Stop(dones, t + 1)
  }

  function Deltas(x: Steps): nat -> real {
    (t: nat) => if StepsOk(x) && t < |x.rewards| then Delta(x, t) else 0.0
  }

  lemma {:induction false} Shift(f: nat -> real, c: real, t: nat, e: nat)
    requires t < e
    ensures Discounted(f, c, t, e) == f(t) + c * Discounted(f, c, t + 1, e)
    decreases e - t
  {
    if t + 1 < e {
      Shift(f, c, t, e - 1);
      ShiftTerm(c, Pow(c, e - 2 - t), Pow(c, e - 1 - t), f(t), f(e - 1), Discounted(f, c, t, e - 1),
        Discounted(f, c, t, e), Discounted(f, c, t + 1, e - 1), Discounted(f, c, t + 1, e));
    } else {
      OneTerm(f, c, t);
      TimesZero(c);
    }
  }

  lemma {:induction false} ShiftTerm(c: real, p: real, cp: real, first: real, last: real, early: real, whole: real,
        late: real, rest: real)
    requires cp == c * p && early == first + c * late && whole == early + cp * last && rest == late + p * last
    ensures whole == first + c * rest
  {
    assert c * rest == c * late + c * (p * last);
    assert cp * last == c * (p * last);
  }

  lemma {:induction false} TimesZero(c: real)
    ensures c * 0.0 == 0.0
  {
  }

  lemma {:induction false} OneTerm(f: nat -> real, c: real, t: nat)
    ensures Discounted(f, c, t, t + 1) == f(t)
  {
    assert Discounted(f, c, t, t) == 0.0 && Pow(c, 0) == 1.0;
    OneTimes(f(t));
  }

  ghost predicate IsDiscounted(v: real, f: nat -> real, c: real, t: nat, e: nat)
    requires t <= e
  {
    v == Discounted(f, c, t, e)
  }

  lemma {:induction false} OneMore(x: Steps, f: nat -> real, c: real, t: nat, e: nat)
    requires StepsOk(x) && t < |x.rewards| && !x.dones[t + 1] && c == x.gamma * x.lambda && f == Deltas(x)
    requires t < e && IsDiscounted(Gae(x, t + 1), f, c, t + 1, e)
    ensures IsDiscounted(Gae(x, t), f, c, t, e)
  {
    LiveStep(x, t, c);
    Shift(f, c, t, e);
  }

  lemma {:induction false} LastOne(x: Steps, f: nat -> real, c: real, t: nat)
    requires StepsOk(x) && t < |x.rewards| && Stop(x.dones, t) == t + 1 && f == Deltas(x)
    ensures IsDiscounted(Gae(x, t), f, c, t, t + 1)
  {
    OneTerm(f, c, t);
    NothingAfter(x, t);
  }

  lemma {:induction false} DiscountedFrom(x: Steps, t: nat, c: real, f: nat -> real)
    requires StepsOk(x) && t < |x.rewards| && c == x.gamma * x.lambda && f == Deltas(x)
    ensures IsDiscounted(Gae(x, t), f, c, t, Stop(x.dones, t))
    decreases |x.rewards| - t
  {
    var e := Stop(x.dones, t);
    if e == t + 1 {
      LastOne(x, f, c, t);
    } else {
      DiscountedFrom(x, t + 1, c, f);
      OneMore(x, f, c, t, e);
    }
  }

  /** The advantage is the discounted sum of the temporal differences up to the first done. */
  lemma {:induction false} GaeIsDiscountedSum(x: Steps, t: nat)
    requires StepsOk(x) && t < |x.rewards|
    ensures Gae(x, t) == Discounted(Deltas(x), x.gamma * x.lambda, t, Stop(x.dones, t))
  {
    DiscountedFrom(x, t, x.gamma * x.lambda, Deltas(x));
  }

  lemma {:induction false} LiveStep(x: Steps, t: nat, c: real)
    requires StepsOk(x) && t < |x.rewards| && !x.dones[t + 1] && c == x.gamma * x.lambda
    ensures Gae(x, t) == Delta(x, t) + c * Gae(x, t + 1)
  {
    KeepTimes(c, Gae(x, t + 1));
  }

  lemma {:induction false} KeepTimes(c: real, v: real)
    ensures c * 1.0 * v == c * v
  {
  }

  lemma {:induction false} NothingAfter(x: Steps, t: nat)
    requires StepsOk(x) && t < |x.rewards| && Stop(x.dones, t) == t + 1
    ensures Gae(x, t) == Delta(x, t)
  {
    if x.dones[t + 1] {
      assert Live(x.dones[t + 1]) == 0.0;
    } else {
      assert Gae(x, t + 1) == 0.0;
    }
  }

  function RewardSum(rewards: seq<real>, t: nat, e: nat): real
    requires t <= e <= |rewards|
    decreases e - t
  {
    if t == e then 0.0 else rewards[t] + RewardSum(rewards, t + 1, e)
  }

  /** The critic-free return, and so the score, is the reward collected up to the first done. */
  lemma {:induction false} ScoreIsSum(rewards: seq<real>, dones: seq<bool>, t: nat)
    requires |dones| == |rewards| + 1 && t < |rewards|
    ensures Score(rewards, dones, t) == RewardSum(rewards, t, Stop(dones, t))
    decreases |rewards| - t
  {
    if Stop(dones, t) == t + 1 {
      assert RewardSum(rewards, t + 1, t + 1) == 0.0;
      assert dones[t + 1] || Score(rewards, dones, t + 1) == 0.0;
    } else {
      ScoreIsSum(rewards, dones, t + 1);
      OneTimes(Score(rewards, dones, t + 1));
    }
  }

  // ---------------------------------------------------------------- nothing after a done matters

  /** Both agree on the steps from t to e, and on the value of state e unless it is done. */
  ghost predicate Agree(x: Steps, y: Steps, t: nat, e: nat)
    requires StepsOk(x) && StepsOk(y) && t <= e <= |x.rewards| && e <= |y.rewards|
  {
    && x.gamma == y.gamma && x.lambda == y.lambda
    && x.rewards[t..e] == y.rewards[t..e] && x.values[t..e] == y.values[t..e]
    && x.dones[t + 1..e + 1] == y.dones[t + 1..e + 1]
    && (!x.dones[e] ==> x.values[e] == y.values[e])
  }

  lemma {:induction false} AgreeStep(x: Steps, y: Steps, t: nat, e: nat)
    requires StepsOk(x) && StepsOk(y) && t < e <= |x.rewards| && e <= |y.rewards| && Agree(x, y, t, e)
    ensures Agree(x, y, t + 1, e)
    ensures x.rewards[t] == y.rewards[t] && x.values[t] == y.values[t] && x.dones[t + 1] == y.dones[t + 1]
    ensures t + 1 < e ==> x.values[t + 1] == y.values[t + 1]
  {
    assert x.rewards[t..e][1..] == x.rewards[t + 1..e] && y.rewards[t..e][1..] == y.rewards[t + 1..e];
    assert x.values[t..e][1..] == x.values[t + 1..e] && y.values[t..e][1..] == y.values[t + 1..e];
    assert x.dones[t + 1..e + 1][1..] == x.dones[t + 2..e + 1] && y.dones[t + 1..e + 1][1..] == y.dones[t + 2..e + 1];
    assert x.rewards[t] == x.rewards[t..e][0] && y.rewards[t] == y.rewards[t..e][0];
    assert x.values[t] == x.values[t..e][0] && y.values[t] == y.values[t..e][0];
    assert x.dones[t + 1] == x.dones[t + 1..e + 1][0] && y.dones[t + 1] == y.dones[t + 1..e + 1][0];
    if t + 1 < e {
      assert x.values[t + 1] == x.values[t..e][1] && y.values[t + 1] == y.values[t..e][1];
    }
  }

  /** Rewards and values after the first done do not influence the advantage. */
  lemma {:induction false} GaeStopsAtDone(x: Steps, y: Steps, t: nat)
    requires StepsOk(x) && StepsOk(y) && t < |x.rewards| && Stop(x.dones, t) <= |y.rewards|
    requires x.dones[Stop(x.dones, t)] || |y.rewards| == |x.rewards|
    requires Agree(x, y, t, Stop(x.dones, t))
    ensures Gae(x, t) == Gae(y, t)
    decreases |x.rewards| - t
  {
    var e := Stop(x.dones, t);
    AgreeStep(x, y, t, e);
    SameDelta(x, y, t);
    if e > t + 1 {
      GaeStopsAtDone(x, y, t + 1);
      SameBackward(x, y, t);
    } else {
      NothingAfter(x, t);
      assert Stop(y.dones, t) == t + 1;
      NothingAfter(y, t);
    }
  }

  lemma {:induction false} SameBackward(x: Steps, y: Steps, t: nat)
    requires StepsOk(x) && StepsOk(y) && t < |x.rewards|
    requires t < |y.rewards| && x.gamma == y.gamma && x.lambda == y.lambda
    requires Delta(x, t) == Delta(y, t) && x.dones[t + 1] == y.dones[t + 1] && Gae(x, t + 1) == Gae(y, t + 1)
    ensures Gae(x, t) == Gae(y, t)
  {
  }

  lemma {:induction false} SameDelta(x: Steps, y: Steps, t: nat)
    requires StepsOk(x) && StepsOk(y) && t < |x.rewards| && t < |y.rewards| && x.gamma == y.gamma
    requires x.rewards[t] == y.rewards[t] && x.values[t] == y.values[t] && x.dones[t + 1] == y.dones[t + 1]
    requires !x.dones[t + 1] ==> x.values[t + 1] == y.values[t + 1]
    ensures Delta(x, t) == Delta(y, t)
  {
    if x.dones[t + 1] {
      assert Live(x.dones[t + 1]) == 0.0;
    }
  }

  // ---------------------------------------------------------------- lambda one

  function RewardAt(x: Steps): nat -> real {
    (t: nat) => if t < |x.rewards| then x.rewards[t] else 0.0
  }

  /** The value the return falls back on: none after a done. */
  function Bootstrap(x: Steps, e: nat): real
    requires StepsOk(x) && e < |x.values|
  {
    if x.dones[e] then 0.0 else x.values[e]
  }

  /** Rewards discounted step by step down to the bootstrap value of state e. */
  function NStep(x: Steps, t: nat, e: nat): real
    requires StepsOk(x) && t <= e <= |x.rewards|
    decreases e - t
  {
    if t == e then Bootstrap(x, e) else x.rewards[t] + x.gamma * NStep(x, t + 1, e)
  }

  lemma {:induction false} NStepIsSum(x: Steps, t: nat, e: nat, f: nat -> real, g: real, boot: real)
    requires StepsOk(x) && t <= e <= |x.rewards| && f == RewardAt(x) && g == x.gamma && boot == Bootstrap(x, e)
    ensures NStep(x, t, e) == Discounted(f, g, t, e) + Pow(g, e - t) * boot
    decreases e - t
  {
    if t == e {
      NoSteps(f, g, t, boot);
    } else {
      NStepIsSum(x, t + 1, e, f, g, boot);
      NStepFold(g, f, t, e, boot, NStep(x, t + 1, e), NStep(x, t, e));
    }
  }

  lemma {:induction false} NoSteps(f: nat -> real, g: real, t: nat, boot: real)
    ensures Discounted(f, g, t, t) + Pow(g, 0) * boot == boot
  {
    OneTimes(boot);
  }

  lemma {:induction false} NStepFold(g: real, f: nat -> real, t: nat, e: nat, boot: real, next: real, whole: real)
    requires t < e && whole == f(t) + g * next && next == Discounted(f, g, t + 1, e) + Pow(g, e - t - 1) * boot
    ensures whole == Discounted(f, g, t, e) + Pow(g, e - t) * boot
  {
    Shift(f, g, t, e);
    FoldStep(g, f(t), Discounted(f, g, t + 1, e), Pow(g, e - t - 1), boot, next, whole, Discounted(f, g, t, e),
      Pow(g, e - t));
  }

  lemma {:induction false} FoldStep(g: real, r: real, rest: real, p: real, boot: real, next: real, whole: real,
        sum: real, power: real)
    requires next == rest + p * boot && whole == r + g * next && sum == r + g * rest && power == g * p
    ensures whole == sum + power * boot
  {
  }

  lemma {:induction false} LastStep(x: Steps, t: nat)
    requires StepsOk(x) && t < |x.rewards|
    ensures Delta(x, t) + x.values[t] == x.rewards[t] + x.gamma * Bootstrap(x, t + 1)
  {
  }

  lemma {:induction false} UndiscountedStep(x: Steps, t: nat)
    requires StepsOk(x) && t < |x.rewards| && x.lambda == 1.0 && !x.dones[t + 1]
    ensures Gae(x, t) == (x.rewards[t] + x.gamma * x.values[t + 1] - x.values[t]) + x.gamma * Gae(x, t + 1)
  {
    OneTimes(x.gamma);
    LiveStep(x, t, x.gamma);
  }

  lemma {:induction false} ReturnIsNStep(x: Steps, t: nat)
    requires StepsOk(x) && t < |x.rewards| && x.lambda == 1.0
    ensures Gae(x, t) + x.values[t] == NStep(x, t, Stop(x.dones, t))
    decreases |x.rewards| - t
  {
    var e := Stop(x.dones, t);
    if e == t + 1 {
      NothingAfter(x, t);
      LastStep(x, t);
    } else {
      ReturnIsNStep(x, t + 1);
      UndiscountedStep(x, t);
      FoldNext(x.gamma, Gae(x, t + 1), x.values[t + 1], NStep(x, t + 1, e));
    }
  }

  lemma {:induction false} FoldNext(g: real, gae: real, v: real, next: real)
    requires gae + v == next
    ensures g * v + g * gae == g * next
  {
  }

  /** With lambda one the return is the discounted rewards up to the first done plus the discounted bootstrap value. */
  lemma {:induction false} ReturnsTelescope(x: Steps, t: nat)
    requires StepsOk(x) && t < |x.rewards| && x.lambda == 1.0
    ensures var e := Stop(x.dones, t);
      Gae(x, t) + x.values[t] == Discounted(RewardAt(x), x.gamma, t, e) + Pow(x.gamma, e - t) * Bootstrap(x, e)
  {
    ReturnIsNStep(x, t);
    var e := Stop(x.dones, t);
    NStepIsSum(x, t, e, RewardAt(x), x.gamma, Bootstrap(x, e));
  }

  // ---------------------------------------------------------------- chunks and steps

  /** A tensor [chunks, environments, chunk size]. */
  type Chunked = seq<seq<seq<real>>>

  ghost predicate Shaped(x: Chunked, chunks: nat, envs: nat, size: nat) {
    && |x| == chunks && (forall c :: 0 <= c < chunks ==> |x[c]| == envs)
    && forall c, b :: 0 <= c < chunks && 0 <= b < envs ==> |x[c][b]| == size
  }

  /** Step s is position s % size of chunk s / size. */
  lemma {:induction false} StepOf(c: nat, k: nat, size: nat)
    requires k < size
    ensures (c * size + k) / size == c && (c * size + k) % size == k
  {
    DivModUnique(c * size + k, c, k, size);
  }

  lemma {:induction false} ChunkOf(s: nat, chunks: nat, size: nat)
    requires size > 0 && s < chunks * size
    ensures s / size < chunks && s % size < size && s == s / size * size + s % size
  {
    if s / size >= chunks {
      MulMono(chunks, s / size, size);
    }
  }

  /** Lays the chunks out as steps, one chunk after the other. */
  function ToSteps(x: Chunked, chunks: nat, envs: nat, size: nat): (r: seq<seq<real>>)
    requires Shaped(x, chunks, envs, size) && size > 0
    ensures |r| == chunks * size
    ensures forall s :: 0 <= s < chunks * size ==> |r[s]| == envs
  {
    seq(chunks * size, s requires 0 <= s < chunks * size =>
      ChunkOf(s, chunks, size);
      seq(envs, b requires 0 <= b < envs => x[s / size][b][s % size]))
  }

  /** Cuts the steps into chunks again. */
  function ToChunks(y: seq<seq<real>>, chunks: nat, envs: nat, size: nat): (r: Chunked)
    requires |y| == chunks * size && size > 0 && forall s :: 0 <= s < |y| ==> |y[s]| == envs
    ensures Shaped(r, chunks, envs, size)
  {
    seq(chunks, c requires 0 <= c < chunks =>
      seq(envs, b requires 0 <= b < envs =>
        seq(size, k requires 0 <= k < size => StepBelow(c, k, chunks, size); y[c * size + k][b])))
  }

  lemma {:induction false} StepBelow(c: nat, k: nat, chunks: nat, size: nat)
    requires c < chunks && k < size
    ensures 0 <= c * size + k < chunks * size
  {
    SuccTimes(c, size);
    MulMono(c + 1, chunks, size);
  }

  lemma {:induction false} StepEntry(x: Chunked, chunks: nat, envs: nat, size: nat, c: nat, b: nat, k: nat)
    requires Shaped(x, chunks, envs, size) && c < chunks && b < envs && k < size
    ensures c * size + k < chunks * size && |ToSteps(x, chunks, envs, size)[c * size + k]| == envs
    ensures ToSteps(x, chunks, envs, size)[c * size + k][b] == x[c][b][k]
  {
    StepBelow(c, k, chunks, size);
    StepOf(c, k, size);
  }

  /** Turning chunks into steps and back gives the chunks again. */
  lemma {:induction false} ChunksRoundTrip(x: Chunked, chunks: nat, envs: nat, size: nat)
    requires Shaped(x, chunks, envs, size) && size > 0
    ensures ToChunks(ToSteps(x, chunks, envs, size), chunks, envs, size) == x
  {
    var z := ToChunks(ToSteps(x, chunks, envs, size), chunks, envs, size);
    forall c: nat | c < chunks ensures z[c] == x[c] {
      forall b: nat | b < envs ensures z[c][b] == x[c][b] {
        forall k: nat | k < size ensures z[c][b][k] == x[c][b][k] {
          StepEntry(x, chunks, envs, size, c, b, k);
        }
      }
    }
  }

  /** And steps turned into chunks and back are the steps again. */
  lemma {:induction false} StepsRoundTrip(y: seq<seq<real>>, chunks: nat, envs: nat, size: nat)
    requires |y| == chunks * size && size > 0 && forall s :: 0 <= s < |y| ==> |y[s]| == envs
    ensures ToSteps(ToChunks(y, chunks, envs, size), chunks, envs, size) == y
  {
    var z := ToSteps(ToChunks(y, chunks, envs, size), chunks, envs, size);
    forall s: nat | s < chunks * size ensures z[s] == y[s] {
      ChunkOf(s, chunks, size);
      forall b: nat | b < envs ensures z[s][b] == y[s][b] {
      }
    }
  }

  /** `dones` and `values` hold one chunk more; the flags drop their first size - 1 steps, the values their last. */
  function DonesOf(full: seq<seq<real>>, steps: nat): seq<seq<real>>
    requires steps + 1 <= |full|
  {
    full[|full| - (steps + 1)..]
  }

  function ValuesOf(full: seq<seq<real>>, steps: nat): seq<seq<real>>
    requires steps + 1 <= |full|
  {
    full[..steps + 1]
  }

  /** The flag after a step comes from the same position of the next chunk. */
  lemma {:induction false} DoneAligned(dones: Chunked, chunks: nat, envs: nat, size: nat, c: nat, b: nat, k: nat)
    requires Shaped(dones, chunks + 1, envs, size) && c < chunks && b < envs && k < size
    ensures var steps, s, d := chunks * size, c * size + k, ToSteps(dones, chunks + 1, envs, size);
      && s < steps && steps + 1 <= |d| && |DonesOf(d, steps)[s + 1]| == envs
      && DonesOf(d, steps)[s + 1][b] == dones[c + 1][b][k]
  {
    SuccTimes(chunks, size);
    SuccTimes(c, size);
    StepBelow(c, k, chunks, size);
    StepEntry(dones, chunks + 1, envs, size, c + 1, b, k);
  }

  /** The value before a step comes from the step's own position, the last one from the chunk after the last. */
  lemma {:induction false} ValueAligned(values: Chunked, chunks: nat, envs: nat, size: nat, c: nat, b: nat, k: nat)
    requires Shaped(values, chunks + 1, envs, size) && b < envs && k < size && (c < chunks || (c == chunks && k == 0))
    ensures var steps, s, v := chunks * size, c * size + k, ToSteps(values, chunks + 1, envs, size);
      && s <= steps && steps + 1 <= |v| && |ValuesOf(v, steps)[s]| == envs
      && ValuesOf(v, steps)[s][b] == values[c][b][k]
  {
    SuccTimes(chunks, size);
    if c < chunks {
      StepBelow(c, k, chunks, size);
    }
    StepEntry(values, chunks + 1, envs, size, c, b, k);
  }
}
