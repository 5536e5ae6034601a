/**
 The loss-scale stages. Turns belong to a trajectory and, inside it, to an agent. The agent stage
 gives every agent of a trajectory the same total weight, spread evenly over its turns; the turn
 stage spreads it by response tokens instead. Both keep the totals. The stages can only be applied
 in the order group, agent, turn.
*/
module LossScales {
  import opened Sequences
  import opened Outcomes
  import opened Grouping

  // ---------------------------------------------------------------- the weights

  /** The turns of a batch: their trajectories, their agents and their response tokens. */
  datatype Batch = Batch(trajs: seq<int>, agents: seq<int>, tokens: seq<nat>)

  predicate BatchOk(b: Batch) {
    |b.agents| == |b.trajs| == |b.tokens|
  }

  function TrajTurns(b: Batch, traj: int): (r: seq<nat>)
    ensures forall a :: 0 <= a < |r| ==> r[a] < |b.trajs|
  {
    Members(b.trajs, Range(|b.trajs|), traj)
  }

  function AgentsOf(b: Batch, traj: int): seq<int>
    requires BatchOk(b)
  {
    Keys(b.agents, TrajTurns(b, traj))
  }

  function AgentTurns(b: Batch, traj: int, agent: int): (r: seq<nat>)
    requires BatchOk(b)
    ensures forall a :: 0 <= a < |r| ==> r[a] < |b.trajs|
  {
    Members(b.agents, TrajTurns(b, traj), agent)
  }

  function TokenSum(tokens: seq<nat>, idxes: seq<nat>): nat
    requires forall a :: 0 <= a < |idxes| ==> idxes[a] < |tokens|
  {
    if idxes == [] then 0 else TokenSum(tokens, idxes[..|idxes| - 1]) + tokens[idxes[|idxes| - 1]]
  }

  /** A turn is among its agent's turns, so neither count is zero. */
  lemma {:induction false} TurnIsListed(b: Batch, i: nat)
    requires BatchOk(b) && i < |b.trajs|
    ensures i in TrajTurns(b, b.trajs[i]) && i in AgentTurns(b, b.trajs[i], b.agents[i])
    ensures |AgentsOf(b, b.trajs[i])| > 0 && |AgentTurns(b, b.trajs[i], b.agents[i])| > 0
  {
    var range := Range(|b.trajs|);
    assert range[i] == i && i in range;
    MemberIff(b.trajs, range, b.trajs[i], i);
    MemberIff(b.agents, TrajTurns(b, b.trajs[i]), b.agents[i], i);
    KeyIff(b.agents, TrajTurns(b, b.trajs[i]), b.agents[i]);
  }

  /** `1 / A / T`. */
  function AgentFactor(agents: nat, turns: nat): real
    requires agents > 0 && turns > 0
  {
    1.0 / agents as real / turns as real
  }

  /** `T * tokens / all tokens`. */
  function TurnFactor(turns: nat, tokens: nat, all: nat): real
    requires all > 0
  {
    turns as real * tokens as real / all as real
  }

  function AgentFactorOf(b: Batch, i: nat): real
    requires BatchOk(b) && i < |b.trajs|
  {
    TurnIsListed(b, i);
    AgentFactor(|AgentsOf(b, b.trajs[i])|, |AgentTurns(b, b.trajs[i], b.agents[i])|)
  }

  /** The turn's agent has a response token in the trajectory. */
  predicate Speaks(b: Batch, i: nat)
    requires BatchOk(b) && i < |b.trajs|
  {
    TokenSum(b.tokens, AgentTurns(b, b.trajs[i], b.agents[i])) > 0
  }

  ghost predicate AllSpeak(b: Batch)
    requires BatchOk(b)
  {
    forall i: nat {:trigger Speaks(b, i)} :: i < |b.trajs| ==> Speaks(b, i)
  }

  function TurnFactorOf(b: Batch, i: nat): real
    requires BatchOk(b) && i < |b.trajs| && Speaks(b, i)
  {
    var turns := AgentTurns(b, b.trajs[i], b.agents[i]);
    TurnFactor(|turns|, b.tokens[i], TokenSum(b.tokens, turns))
  }

  // ---------------------------------------------------------------- totals

  function Total(w: nat -> real, idxes: seq<nat>): real {
    if idxes == [] then 0.0 else Total(w, idxes[..|idxes| - 1]) + w(idxes[|idxes| - 1])
  }

  function TotalByKey(w: nat -> real, keys: seq<int>, idxes: seq<nat>, order: seq<int>): real
    requires forall a :: 0 <= a < |idxes| ==> idxes[a] < |keys|
  {
    if order == [] then 0.0
    else TotalByKey(w, keys, idxes, order[..|order| - 1]) + Total(w, Members(keys, idxes, order[|order| - 1]))
  }

  lemma {:induction false} OtherKeys(w: nat -> real, keys: seq<int>, idxes: seq<nat>, order: seq<int>)
    requires idxes != [] && (forall a :: 0 <= a < |idxes| ==> idxes[a] < |keys|) && keys[idxes[|idxes| - 1]] !in order
    ensures TotalByKey(w, keys, idxes, order) == TotalByKey(w, keys, idxes[..|idxes| - 1], order)
  {
    if order != [] {
      OtherKeys(w, keys, idxes, order[..|order| - 1]);
      assert order[|order| - 1] in order;
    }
  }

  lemma {:induction false} OneKey(w: nat -> real, keys: seq<int>, idxes: seq<nat>, order: seq<int>)
    requires idxes != [] && (forall a :: 0 <= a < |idxes| ==> idxes[a] < |keys|)
    requires Distinct(order) && keys[idxes[|idxes| - 1]] in order
    ensures TotalByKey(w, keys, idxes, order)
      == TotalByKey(w, keys, idxes[..|idxes| - 1], order) + w(idxes[|idxes| - 1])
  {
    DistinctFront(order);
    var front, last := order[..|order| - 1], order[|order| - 1];
    assert order == front + [last];
    var k := keys[idxes[|idxes| - 1]];
    if last == k {
      OtherKeys(w, keys, idxes, front);
      var members := Members(keys, idxes[..|idxes| - 1], k);
      assert (members + [idxes[|idxes| - 1]])[..|members|] == members;
    } else {
      assert k in front;
      OneKey(w, keys, idxes, front);
    }
  }

  lemma {:induction false} NewKey(w: nat -> real, keys: seq<int>, idxes: seq<nat>, order: seq<int>, k: int)
    requires (forall a :: 0 <= a < |idxes| ==> idxes[a] < |keys|) && Total(w, Members(keys, idxes, k)) == 0.0
    ensures TotalByKey(w, keys, idxes, order + [k]) == TotalByKey(w, keys, idxes, order)
  {
    assert (order + [k])[..|order|] == order;
  }

  lemma {:induction false} NoMembers(w: nat -> real, keys: seq<int>, idxes: seq<nat>, k: int)
    requires forall a :: 0 <= a < |idxes| ==> idxes[a] < |keys|
    requires k !in Keys(keys, idxes)
    ensures Members(keys, idxes, k) == [] && Total(w, Members(keys, idxes, k)) == 0.0
  {
    KeyIff(keys, idxes, k);
  }

  /** Adding a position adds its weight to its key's group, which may be a new one. */
  lemma {:induction false} GroupOneMore(w: nat -> real, keys: seq<int>, idxes: seq<nat>, front: seq<nat>)
    requires idxes != [] && front == idxes[..|idxes| - 1] && forall a :: 0 <= a < |idxes| ==> idxes[a] < |keys|
    ensures TotalByKey(w, keys, idxes, Keys(keys, idxes))
      == TotalByKey(w, keys, front, Keys(keys, front)) + w(idxes[|idxes| - 1])
  {
    var k := keys[idxes[|idxes| - 1]];
    KeysDistinct(keys, idxes);
    KeyIff(keys, idxes, k);
    OneKey(w, keys, idxes, Keys(keys, idxes));
    if k !in Keys(keys, front) {
      NoMembers(w, keys, front, k);
      NewKey(w, keys, front, Keys(keys, front), k);
    }
  }

  /** Grouping keeps the total. */
  lemma {:induction false} GroupedTotal(w: nat -> real, keys: seq<int>, idxes: seq<nat>)
    requires forall a :: 0 <= a < |idxes| ==> idxes[a] < |keys|
    ensures Total(w, idxes) == TotalByKey(w, keys, idxes, Keys(keys, idxes))
  {
    if idxes != [] {
      GroupedTotal(w, keys, idxes[..|idxes| - 1]);
      GroupOneMore(w, keys, idxes, idxes[..|idxes| - 1]);
    }
  }

  lemma {:induction false} EqualTotals(w: nat -> real, keys: seq<int>, idxes: seq<nat>, order: seq<int>, each: real)
    requires forall a :: 0 <= a < |idxes| ==> idxes[a] < |keys|
    requires forall a :: 0 <= a < |order| ==> Total(w, Members(keys, idxes, order[a])) == each
    ensures TotalByKey(w, keys, idxes, order) == Times(|order|, each)
  {
    if order != [] {
      EqualTotals(w, keys, idxes, order[..|order| - 1], each);
    }
  }

  /** Adding up n equal parts. */
  function Times(n: nat, each: real): real {
    if n == 0 then 0.0 else Times(n - 1, each) + each
  }

  lemma {:induction false} TimesIsProduct(n: nat, each: real)
    ensures Times(n, each) == n as real * each
  {
    if n > 0 {
      TimesIsProduct(n - 1, each);
      OneMore(n - 1, each);
    }
  }

  lemma {:induction false} OneMore(n: nat, each: real)
    ensures (n + 1) as real * each == n as real * each + each
  {
  }

  lemma {:induction false} ConstantTotal(w: nat -> real, idxes: seq<nat>, each: real)
    requires forall a :: 0 <= a < |idxes| ==> w(idxes[a]) == each
    ensures Total(w, idxes) == Times(|idxes|, each)
  {
    if idxes != [] {
      ConstantTotal(w, idxes[..|idxes| - 1], each);
    }
  }

  lemma {:induction false} TimesSum(m: nat, n: nat, each: real)
    ensures Times(m + n, each) == Times(m, each) + Times(n, each)
  {
    if n > 0 {
      TimesSum(m, n - 1, each);
    }
  }

  lemma {:induction false} ProportionalTotal(w: nat -> real, tokens: seq<nat>, idxes: seq<nat>, each: real)
    requires forall a :: 0 <= a < |idxes| ==> idxes[a] < |tokens| && w(idxes[a]) == Times(tokens[idxes[a]], each)
    ensures Total(w, idxes) == Times(TokenSum(tokens, idxes), each)
  {
    if idxes != [] {
      var front, last := idxes[..|idxes| - 1], idxes[|idxes| - 1];
      ProportionalTotal(w, tokens, front, each);
      TimesSum(TokenSum(tokens, front), tokens[last], each);
    }
  }

  /** The weights after the agent stage, from unit scales. */
  ghost predicate AgentWeights(b: Batch, w: nat -> real)
    requires BatchOk(b)
  {
    forall i: nat {:trigger w(i)} :: i < |b.trajs| ==> w(i) == AgentFactorOf(b, i)
  }

  /** The weights after the turn stage: what the agent stage gave, times the turn factor. */
  ghost predicate TurnWeights(b: Batch, w: nat -> real)
    requires BatchOk(b) && AllSpeak(b)
  {
    forall i: nat {:trigger w(i)} :: i < |b.trajs| ==> Speaks(b, i) && w(i) == AgentFactorOf(b, i) * TurnFactorOf(b, i)
  }

  lemma {:induction false} AgentTurn(b: Batch, traj: int, agent: int, a: nat)
    requires BatchOk(b) && a < |AgentTurns(b, traj, agent)|
    ensures var i := AgentTurns(b, traj, agent)[a]; i < |b.trajs| && b.trajs[i] == traj && b.agents[i] == agent
  {
    var turns := AgentTurns(b, traj, agent);
    assert turns[a] in turns;
    MemberIff(b.agents, TrajTurns(b, traj), agent, turns[a]);
    MemberIff(b.trajs, Range(|b.trajs|), traj, turns[a]);
  }

  lemma {:induction false} ShareTimes(n: real, agents: real)
    requires n > 0.0 && agents > 0.0
    ensures n * (1.0 / agents / n) == 1.0 / agents
  {
    var share := 1.0 / agents;
    assert share / n * n == share;
  }

  lemma {:induction false} PartsMakeOne(n: nat, each: real)
    requires n > 0 && each == 1.0 / n as real
    ensures Times(n, each) == 1.0
  {
    TimesIsProduct(n, each);
    assert n as real * each == 1.0;
  }

  lemma {:induction false} EvenTotal(w: nat -> real, idxes: seq<nat>, agents: nat, each: real)
    requires agents > 0 && idxes != [] && each == AgentFactor(agents, |idxes|)
    requires forall a :: 0 <= a < |idxes| ==> w(idxes[a]) == each
    ensures Total(w, idxes) == 1.0 / agents as real
  {
    ConstantTotal(w, idxes, each);
    TimesIsProduct(|idxes|, each);
    ShareTimes(|idxes| as real, agents as real);
  }

  /** After the agent stage every agent weighs 1 / A. */
  lemma {:induction false} AgentTotal(b: Batch, w: nat -> real, traj: int, agent: int, idxes: seq<nat>, agents: nat)
    requires BatchOk(b) && AgentWeights(b, w) && idxes != []
    requires idxes == AgentTurns(b, traj, agent) && agents == |AgentsOf(b, traj)|
    ensures agents > 0 && Total(w, idxes) == 1.0 / agents as real
  {
    AgentTurn(b, traj, agent, 0);
    TurnIsListed(b, idxes[0]);
    forall a | 0 <= a < |idxes| ensures w(idxes[a]) == AgentFactor(agents, |idxes|) {
      AgentTurn(b, traj, agent, a);
    }
    EvenTotal(w, idxes, agents, AgentFactor(agents, |idxes|));
  }

  lemma {:induction false} TokenShare(agents: real, turns: real, tokens: real, all: real)
    requires agents > 0.0 && turns > 0.0 && all > 0.0
    ensures 1.0 / agents / turns * (turns * tokens / all) == tokens * (1.0 / agents / all)
  {
    var share, rate := 1.0 / agents, tokens / all;
    assert turns * tokens / all == turns * rate;
    assert share / turns * turns == share;
    assert share / turns * (turns * rate) == share * rate;
    assert tokens * (share / all) == share * rate;
  }

  /** The weight of one response token: an agent's share over its response tokens. */
  function PerToken(agents: nat, all: nat): real
    requires agents > 0 && all > 0
  {
    1.0 / agents as real / all as real
  }

  lemma {:induction false} FactorsPerToken(agents: nat, turns: nat, tokens: nat, all: nat, f: real, g: real)
    requires agents > 0 && turns > 0 && all > 0
    requires f == AgentFactor(agents, turns) && g == TurnFactor(turns, tokens, all)
    ensures f * g == tokens as real * PerToken(agents, all)
  {
    TokenShare(agents as real, turns as real, tokens as real, all as real);
  }

  lemma {:induction false} FactorsAreTimes(agents: nat, turns: nat, tokens: nat, all: nat, f: real, g: real, each: real)
    requires agents > 0 && turns > 0 && all > 0
    requires f == AgentFactor(agents, turns) && g == TurnFactor(turns, tokens, all)
    requires each == PerToken(agents, all)
    ensures f * g == Times(tokens, each)
  {
    FactorsPerToken(agents, turns, tokens, all, f, g);
    TimesIsProduct(tokens, each);
  }

  lemma {:induction false} TokenTimes(b: Batch, w: nat -> real, i: nat, agents: nat, all: nat)
    requires BatchOk(b) && AllSpeak(b) && TurnWeights(b, w) && i < |b.trajs| && agents == |AgentsOf(b, b.trajs[i])|
    requires all == TokenSum(b.tokens, AgentTurns(b, b.trajs[i], b.agents[i]))
    ensures agents > 0 && all > 0 && w(i) == Times(b.tokens[i], PerToken(agents, all))
  {
    TurnIsListed(b, i);
    assert Speaks(b, i);
    FactorsAreTimes(agents, |AgentTurns(b, b.trajs[i], b.agents[i])|, b.tokens[i], all,
      AgentFactorOf(b, i), TurnFactorOf(b, i), PerToken(agents, all));
  }

  /** The turn stage makes an agent's weights proportional to its turns' response tokens. */
  lemma {:induction false} TokenProportional(b: Batch, w: nat -> real, i: nat, agents: nat, all: nat)
    requires BatchOk(b) && AllSpeak(b) && TurnWeights(b, w) && i < |b.trajs| && agents == |AgentsOf(b, b.trajs[i])|
    requires all == TokenSum(b.tokens, AgentTurns(b, b.trajs[i], b.agents[i]))
    ensures agents > 0 && all > 0 && w(i) == b.tokens[i] as real * PerToken(agents, all)
  {
    TokenTimes(b, w, i, agents, all);
    TimesIsProduct(b.tokens[i], PerToken(agents, all));
  }

  lemma {:induction false} PartsMakeShare(all: nat, agents: nat, each: real)
    requires all > 0 && agents > 0 && each == 1.0 / agents as real / all as real
    ensures Times(all, each) == 1.0 / agents as real
  {
    TimesIsProduct(all, each);
    ShareTimes(all as real, agents as real);
  }

  lemma {:induction false} ProportionalShare(w: nat -> real, tokens: seq<nat>, idxes: seq<nat>, agents: nat, all: nat,
        each: real)
    requires (forall a :: 0 <= a < |idxes| ==> idxes[a] < |tokens|) && all == TokenSum(tokens, idxes) > 0 && agents > 0
    requires each == 1.0 / agents as real / all as real
    requires forall a :: 0 <= a < |idxes| ==> w(idxes[a]) == Times(tokens[idxes[a]], each)
    ensures Total(w, idxes) == 1.0 / agents as real
  {
    ProportionalTotal(w, tokens, idxes, each);
    PartsMakeShare(all, agents, each);
  }

  lemma {:induction false} TokenTotal(b: Batch, w: nat -> real, traj: int, agent: int, idxes: seq<nat>, agents: nat,
        all: nat, each: real)
    requires BatchOk(b) && AllSpeak(b) && TurnWeights(b, w) && idxes == AgentTurns(b, traj, agent)
    requires agents == |AgentsOf(b, traj)| && all == TokenSum(b.tokens, idxes) && agents > 0 && all > 0
    requires each == PerToken(agents, all)
    ensures Total(w, idxes) == 1.0 / agents as real
  {
    forall a: nat | a < |idxes| ensures w(idxes[a]) == Times(b.tokens[idxes[a]], each) {
      PerTokenAt(b, w, idxes[a], traj, agent, agents, all, each, a);
    }
    ProportionalShare(w, b.tokens, idxes, agents, all, each);
  }

  lemma {:induction false} PerTokenAt(b: Batch, w: nat -> real, i: nat, traj: int, agent: int, agents: nat, all: nat,
        each: real, a: nat)
    requires BatchOk(b) && AllSpeak(b) && TurnWeights(b, w)
    requires a < |AgentTurns(b, traj, agent)| && i == AgentTurns(b, traj, agent)[a]
    requires agents == |AgentsOf(b, traj)| > 0 && all == TokenSum(b.tokens, AgentTurns(b, traj, agent)) > 0
    requires each == PerToken(agents, all)
    ensures w(i) == Times(b.tokens[i], each)
  {
    AgentTurn(b, traj, agent, a);
    TokenTimes(b, w, i, agents, all);
  }

  /** And it keeps every agent's total. */
  lemma {:induction false} AgentTotalKept(b: Batch, w: nat -> real, traj: int, agent: int, idxes: seq<nat>, agents: nat)
    requires BatchOk(b) && AllSpeak(b) && TurnWeights(b, w) && idxes != []
    requires idxes == AgentTurns(b, traj, agent) && agents == |AgentsOf(b, traj)|
    ensures agents > 0 && Total(w, idxes) == 1.0 / agents as real
  {
    var all := TokenSum(b.tokens, idxes);
    AgentTurn(b, traj, agent, 0);
    TurnIsListed(b, idxes[0]);
    assert Speaks(b, idxes[0]);
    TokenTotal(b, w, traj, agent, idxes, agents, all, PerToken(agents, all));
  }

  /** Equal shares of all agents make one. */
  lemma {:induction false} SharesMakeOne(w: nat -> real, keys: seq<int>, idxes: seq<nat>, order: seq<int>, each: real)
    requires (forall a :: 0 <= a < |idxes| ==> idxes[a] < |keys|) && order == Keys(keys, idxes) && order != []
    requires each == 1.0 / |order| as real
    requires forall a :: 0 <= a < |order| ==> Total(w, Members(keys, idxes, order[a])) == each
    ensures Total(w, idxes) == 1.0
  {
    GroupedTotal(w, keys, idxes);
    EqualTotals(w, keys, idxes, order, each);
    PartsMakeOne(|order|, each);
  }

  /** Both stages give every trajectory a total weight of one. */
  lemma {:induction false} TrajTotal(b: Batch, w: nat -> real, traj: int)
    requires BatchOk(b) && TrajTurns(b, traj) != []
    requires AgentWeights(b, w) || (AllSpeak(b) && TurnWeights(b, w))
    ensures Total(w, TrajTurns(b, traj)) == 1.0
  {
    var idxes, agents := TrajTurns(b, traj), AgentsOf(b, traj);
    KeyIff(b.agents, idxes, b.agents[idxes[0]]);
    MemberIff(b.agents, idxes, b.agents[idxes[0]], idxes[0]);
    forall a | 0 <= a < |agents| ensures Total(w, Members(b.agents, idxes, agents[a])) == 1.0 / |agents| as real {
      assert agents[a] in agents;
      KeyIff(b.agents, idxes, agents[a]);
      if AgentWeights(b, w) {
        AgentTotal(b, w, traj, agents[a], AgentTurns(b, traj, agents[a]), |agents|);
      } else {
        AgentTotalKept(b, w, traj, agents[a], AgentTurns(b, traj, agents[a]), |agents|);
      }
    }
    SharesMakeOne(w, b.agents, idxes, agents, 1.0 / |agents| as real);
  }

  // ---------------------------------------------------------------- the stages

  datatype Stage = GroupLevel | AgentLevel | TurnLevel

  const ORDER: seq<Stage> := [GroupLevel, AgentLevel, TurnLevel]

  /** Whether a stage may follow the ones applied so far. */
  predicate Allowed(applied: seq<Stage>, stage: Stage) {
    match stage
    case GroupLevel => GroupLevel !in applied
    case AgentLevel => GroupLevel in applied && AgentLevel !in applied
    case TurnLevel => GroupLevel in applied && AgentLevel in applied && TurnLevel !in applied
  }

  /** The applied stages after a call; a call that fails its assertion leaves them as they are. */
  function Apply(applied: seq<Stage>, stage: Stage): seq<Stage> {
    if Allowed(applied, stage) then applied + [stage] else applied
  }

  function ApplyAll(stages: seq<Stage>): seq<Stage> {
    if stages == [] then [] else Apply(ApplyAll(stages[..|stages| - 1]), stages[|stages| - 1])
  }

  lemma {:induction false} StepInOrder(applied: seq<Stage>, stage: Stage)
    requires applied <= ORDER
    ensures Apply(applied, stage) <= ORDER
    ensures Allowed(applied, stage) <==> |applied| < 3 && stage == ORDER[|applied|]
  {
    assert applied == ORDER[..|applied|];
    assert applied == [] || applied == [GroupLevel] || applied == [GroupLevel, AgentLevel] || applied == ORDER;
  }

  /** Whatever the calls, the applied stages are a prefix of group, agent, turn. */
  lemma {:induction false} StagesInOrder(stages: seq<Stage>)
    ensures ApplyAll(stages) <= ORDER
  {
    if stages != [] {
      StagesInOrder(stages[..|stages| - 1]);
      StepInOrder(ApplyAll(stages[..|stages| - 1]), stages[|stages| - 1]);
    }
  }

  /** A stage is accepted exactly when it is the next one in the order. */
  lemma {:induction false} NextStageOnly(stages: seq<Stage>, stage: Stage)
    ensures var applied := ApplyAll(stages);
      Allowed(applied, stage) <==> |applied| < 3 && stage == ORDER[|applied|]
  {
    StagesInOrder(stages);
    StepInOrder(ApplyAll(stages), stage);
  }

  // ---------------------------------------------------------------- the in-place scaling

  /** The chosen turns' values are multiplied by their factors, the others are kept. */
  ghost predicate Rescaled(before: seq<real>, after: seq<real>, at: set<nat>, f: nat -> real) {
    |after| == |before| && forall i :: 0 <= i < |before| ==> after[i] == if i in at then before[i] * f(i) else before[i]
  }

  ghost predicate RescaledAll(before: seq<real>, after: seq<real>, f: nat -> real) {
    |after| == |before| && forall i :: 0 <= i < |before| ==> after[i] == before[i] * f(i)
  }

  lemma {:induction false} RescaledTwice(a: seq<real>, b: seq<real>, c: seq<real>, at: set<nat>, more: set<nat>,
        f: nat -> real)
    requires Rescaled(a, b, at, f) && Rescaled(b, c, more, f) && at !! more
    ensures Rescaled(a, c, at + more, f)
  {
  }

  function AgentFactors(b: Batch): nat -> real {
    (i: nat) => if BatchOk(b) && i < |b.trajs| then AgentFactorOf(b, i) else 1.0
  }

  function TurnFactors(b: Batch): nat -> real {
    (i: nat) => if BatchOk(b) && i < |b.trajs| && Speaks(b, i) then TurnFactorOf(b, i) else 1.0
  }

  function SetOf(idxes: seq<nat>): set<nat> {
    set i | i in idxes
  }

  /** Multiplies the listed turns' values. */
  method ScaleTurns(scales: array<real>, idxes: seq<nat>, factors: seq<real>, ghost f: nat -> real)
    requires |factors| == |idxes| && Distinct(idxes)
    requires forall a :: 0 <= a < |idxes| ==> idxes[a] < scales.Length && factors[a] == f(idxes[a])
    modifies scales
    ensures Rescaled(old(scales[..]), scales[..], SetOf(idxes), f)
  {
    for n := 0 to |idxes|
      invariant Rescaled(old(scales[..]), scales[..], SetOf(idxes[..n]), f)
    {
      assert idxes[n] !in idxes[..n] by {
        forall a: nat | a < n ensures idxes[a] != idxes[n] {
          assert Differ(idxes, a, n);
        }
      }
      assert idxes[..n + 1] == idxes[..n] + [idxes[n]];
      scales[idxes[n]] := scales[idxes[n]] * factors[n];
    }
    assert idxes[..|idxes|] == idxes;
  }

  lemma {:induction false} TrajMember(b: Batch, traj: int, i: nat)
    ensures i in TrajTurns(b, traj) <==> i < |b.trajs| && b.trajs[i] == traj
  {
    RangeDistinct(|b.trajs|);
    MemberIff(b.trajs, Range(|b.trajs|), traj, i);
  }

  lemma {:induction false} AgentMember(b: Batch, traj: int, agent: int, i: nat)
    requires BatchOk(b)
    ensures i in AgentTurns(b, traj, agent) <==> i < |b.trajs| && b.trajs[i] == traj && b.agents[i] == agent
  {
    TrajMember(b, traj, i);
    MemberIff(b.agents, TrajTurns(b, traj), agent, i);
  }

  lemma {:induction false} AgentTurnsDistinct(b: Batch, traj: int, agent: int)
    requires BatchOk(b)
    ensures Distinct(AgentTurns(b, traj, agent))
  {
    RangeDistinct(|b.trajs|);
    MembersDistinct(b.trajs, Range(|b.trajs|), traj);
    MembersDistinct(b.agents, TrajTurns(b, traj), agent);
  }

  /** The turns of the listed agents of a trajectory. */
  ghost function OfAgents(b: Batch, traj: int, agents: seq<int>): set<nat>
    requires BatchOk(b)
  {
    set i: nat | i < |b.trajs| && b.trajs[i] == traj && b.agents[i] in agents
  }

  ghost function OfTrajs(b: Batch, trajs: seq<int>): set<nat> {
    set i: nat | i < |b.trajs| && b.trajs[i] in trajs
  }

  lemma {:induction false} NextAgent(b: Batch, traj: int, order: seq<int>, m: nat)
    requires BatchOk(b) && Distinct(order) && m < |order|
    ensures OfAgents(b, traj, order[..m + 1]) == OfAgents(b, traj, order[..m]) + SetOf(AgentTurns(b, traj, order[m]))
    ensures OfAgents(b, traj, order[..m]) !! SetOf(AgentTurns(b, traj, order[m]))
  {
    assert order[..m + 1] == order[..m] + [order[m]];
    assert order[m] !in order[..m] by {
      forall a: nat | a < m ensures order[a] != order[m] {
        assert Differ(order, a, m);
      }
    }
    forall i: nat
      ensures i in AgentTurns(b, traj, order[m]) <==> i < |b.trajs| && b.trajs[i] == traj && b.agents[i] == order[m]
    {
      AgentMember(b, traj, order[m], i);
    }
  }

  lemma {:induction false} NextTraj(b: Batch, order: seq<int>, m: nat)
    requires BatchOk(b) && Distinct(order) && m < |order|
    ensures OfTrajs(b, order[..m + 1]) == OfTrajs(b, order[..m]) + OfAgents(b, order[m], AgentsOf(b, order[m]))
    ensures OfTrajs(b, order[..m]) !! OfAgents(b, order[m], AgentsOf(b, order[m]))
  {
    var traj := order[m];
    assert order[..m + 1] == order[..m] + [traj];
    assert traj !in order[..m] by {
      forall a: nat | a < m ensures order[a] != order[m] {
        assert Differ(order, a, m);
      }
    }
    forall i: nat | i < |b.trajs| && b.trajs[i] == traj ensures b.agents[i] in AgentsOf(b, traj) {
      TurnIsListed(b, i);
      KeyIff(b.agents, TrajTurns(b, traj), b.agents[i]);
    }
  }

  lemma {:induction false} AllTrajs(b: Batch)
    requires BatchOk(b)
    ensures forall i: nat :: i < |b.trajs| ==> i in OfTrajs(b, Keys(b.trajs, Range(|b.trajs|)))
  {
    forall i: nat | i < |b.trajs| ensures b.trajs[i] in Keys(b.trajs, Range(|b.trajs|)) {
      TurnIsListed(b, i);
      KeyIff(b.trajs, Range(|b.trajs|), b.trajs[i]);
    }
  }

  method SumTokens(tokens: seq<nat>, idxes: seq<nat>) returns (all: nat)
    requires forall a :: 0 <= a < |idxes| ==> idxes[a] < |tokens|
    ensures all == TokenSum(tokens, idxes)
  {
    all := 0;
    for n := 0 to |idxes|
      invariant all == TokenSum(tokens, idxes[..n])
    {
      assert idxes[..n + 1][..n] == idxes[..n];
      all := all + tokens[idxes[n]];
    }
    assert idxes[..|idxes|] == idxes;
  }

  function GroupFactor(turns: nat, ranks: nat, globalBatchSize: nat): real
    requires globalBatchSize > 0
  {
    (turns * ranks) as real / globalBatchSize as real
  }

  /** A rank's advantages after the group stage. */
  function GroupScaled(advantages: seq<real>, ranks: nat, globalBatchSize: nat): (r: seq<real>)
    requires globalBatchSize > 0
    ensures |r| == |advantages|
  {
    seq(|advantages|, i requires 0 <= i < |advantages| =>
      advantages[i] * GroupFactor(|advantages|, ranks, globalBatchSize))
  }

  /** The agent stage for one agent: its turns share 1 / A evenly. */
  method ScaleAgent(b: Batch, scales: array<real>, agents: nat, turns: seq<nat>, ghost traj: int, ghost agent: int)
    requires BatchOk(b) && scales.Length == |b.trajs|
    requires agents == |AgentsOf(b, traj)| && turns == AgentTurns(b, traj, agent) && turns != []
    modifies scales
    ensures Rescaled(old(scales[..]), scales[..], SetOf(turns), AgentFactors(b))
  {
    AgentTurnsDistinct(b, traj, agent);
    AgentTurn(b, traj, agent, 0);
    TurnIsListed(b, turns[0]);
    var factors := seq(|turns|, _ => AgentFactor(agents, |turns|));
    forall a: nat | a < |turns| ensures factors[a] == AgentFactors(b)(turns[a]) {
      AgentTurn(b, traj, agent, a);
    }
    ScaleTurns(scales, turns, factors, AgentFactors(b));
  }

  /** The turn stage for one agent: each turn times T * tokens / all tokens; no token at all divides by zero. */
  method RefineAgent(b: Batch, scales: array<real>, turns: seq<nat>, ghost traj: int,
        ghost agent: int) returns (ok: bool)
    requires BatchOk(b) && scales.Length == |b.trajs| && turns == AgentTurns(b, traj, agent) && turns != []
    modifies scales
    ensures ok <==> TokenSum(b.tokens, turns) > 0
    ensures ok ==> Rescaled(old(scales[..]), scales[..], SetOf(turns), TurnFactors(b))
  {
    AgentTurnsDistinct(b, traj, agent);
    var all := SumTokens(b.tokens, turns);
    ok := all > 0;
    if ok {
      var factors := seq(|turns|, a requires 0 <= a < |turns| => TurnFactor(|turns|, b.tokens[turns[a]], all));
      forall a: nat | a < |turns| ensures factors[a] == TurnFactors(b)(turns[a]) {
        AgentTurn(b, traj, agent, a);
      }
      ScaleTurns(scales, turns, factors, TurnFactors(b));
    }
  }

  /** The agent stage for the agents of one trajectory. */
  method ScaleTraj(b: Batch, scales: array<real>, traj: int, idxes: seq<nat>)
    requires BatchOk(b) && scales.Length == |b.trajs| && idxes == TrajTurns(b, traj)
    modifies scales
    ensures Rescaled(old(scales[..]), scales[..], OfAgents(b, traj, AgentsOf(b, traj)), AgentFactors(b))
  {
    var order, groups := GroupBy(b.agents, idxes);
    KeysDistinct(b.agents, idxes);
    for m := 0 to |order|
      invariant Rescaled(old(scales[..]), scales[..], OfAgents(b, traj, order[..m]), AgentFactors(b))
    {
      var agent := order[m];
      assert agent in order;
      ghost var before := scales[..];
      KeyIff(b.agents, idxes, agent);
      ScaleAgent(b, scales, |order|, groups[agent], traj, agent);
      NextAgent(b, traj, order, m);
      RescaledTwice(old(scales[..]), before, scales[..], OfAgents(b, traj, order[..m]), SetOf(groups[agent]),
        AgentFactors(b));
    }
    assert order[..|order|] == order;
  }

  /** The turn stage for the agents of one trajectory. */
  method RefineTraj(b: Batch, scales: array<real>, traj: int, idxes: seq<nat>) returns (ok: bool)
    requires BatchOk(b) && scales.Length == |b.trajs| && idxes == TrajTurns(b, traj)
    modifies scales
    ensures ok <==> AgentsSpeak(b, traj, AgentsOf(b, traj))
    ensures ok ==> Rescaled(old(scales[..]), scales[..], OfAgents(b, traj, AgentsOf(b, traj)), TurnFactors(b))
  {
    var order, groups := GroupBy(b.agents, idxes);
    KeysDistinct(b.agents, idxes);
    for m := 0 to |order|
      invariant AgentsSpeak(b, traj, order[..m])
      invariant Rescaled(old(scales[..]), scales[..], OfAgents(b, traj, order[..m]), TurnFactors(b))
    {
      var agent := order[m];
      assert agent in order;
      ghost var before := scales[..];
      KeyIff(b.agents, idxes, agent);
      ok := RefineAgent(b, scales, groups[agent], traj, agent);
      if !ok {
        assert !AgentSpeaks(b, traj, order[m]);
        return;
      }
      NextAgent(b, traj, order, m);
      RescaledTwice(old(scales[..]), before, scales[..], OfAgents(b, traj, order[..m]), SetOf(groups[agent]),
        TurnFactors(b));
    }
    assert order[..|order|] == order;
    ok := true;
  }

  ghost predicate AgentSpeaks(b: Batch, traj: int, agent: int)
    requires BatchOk(b)
  {
    TokenSum(b.tokens, AgentTurns(b, traj, agent)) > 0
  }

  ghost predicate AgentsSpeak(b: Batch, traj: int, agents: seq<int>)
    requires BatchOk(b)
  {
    forall a {:trigger AgentSpeaks(b, traj, agents[a])} :: 0 <= a < |agents| ==> AgentSpeaks(b, traj, agents[a])
  }

  ghost predicate TrajSpeaks(b: Batch, traj: int)
    requires BatchOk(b)
  {
    AgentsSpeak(b, traj, AgentsOf(b, traj))
  }

  ghost predicate TrajsSpeak(b: Batch, trajs: seq<int>)
    requires BatchOk(b)
  {
    forall a {:trigger TrajSpeaks(b, trajs[a])} :: 0 <= a < |trajs| ==> TrajSpeaks(b, trajs[a])
  }

  /** The loops find a silent agent exactly if there is one. */
  lemma {:induction false} SpeakIff(b: Batch)
    requires BatchOk(b)
    ensures TrajsSpeak(b, Keys(b.trajs, Range(|b.trajs|))) <==> AllSpeak(b)
  {
    var order := Keys(b.trajs, Range(|b.trajs|));
    if TrajsSpeak(b, order) {
      forall i: nat | i < |b.trajs| ensures Speaks(b, i) {
        TurnIsListed(b, i);
        KeyIff(b.trajs, Range(|b.trajs|), b.trajs[i]);
        KeyIff(b.agents, TrajTurns(b, b.trajs[i]), b.agents[i]);
        var a :| 0 <= a < |order| && order[a] == b.trajs[i];
        assert TrajSpeaks(b, order[a]);
        var agents := AgentsOf(b, b.trajs[i]);
        var c :| 0 <= c < |agents| && agents[c] == b.agents[i];
        assert AgentSpeaks(b, b.trajs[i], agents[c]);
      }
    }
    if AllSpeak(b) {
      forall a: nat | a < |order| ensures TrajSpeaks(b, order[a]) {
        forall c: nat | c < |AgentsOf(b, order[a])| ensures AgentSpeaks(b, order[a], AgentsOf(b, order[a])[c]) {
          SomeTurn(b, order[a], AgentsOf(b, order[a])[c]);
        }
      }
    }
  }

  lemma {:induction false} SomeTurn(b: Batch, traj: int, agent: int)
    requires BatchOk(b) && AllSpeak(b) && agent in AgentsOf(b, traj)
    ensures AgentSpeaks(b, traj, agent)
  {
    KeyIff(b.agents, TrajTurns(b, traj), agent);
    AgentTurn(b, traj, agent, 0);
    assert Speaks(b, AgentTurns(b, traj, agent)[0]);
  }

  // ---------------------------------------------------------------- the mean over all ranks

  function SumOf(xs: seq<real>): real {
    if xs == [] then 0.0 else xs[0] + SumOf(xs[1..])
  }

  function MeanOf(xs: seq<real>): real
    requires xs != []
  {
    SumOf(xs) / |xs| as real
  }

  /** The mean advantage of every rank after the group stage. */
  function ScaledMeans(local: seq<seq<real>>, ranks: nat, globalBatchSize: nat): (r: seq<real>)
    requires globalBatchSize > 0 && forall b :: 0 <= b < |local| ==> local[b] != []
    ensures |r| == |local|
  {
    seq(|local|, b requires 0 <= b < |local| => MeanOf(GroupScaled(local[b], ranks, globalBatchSize)))
  }

  lemma {:induction false} SumTimes(xs: seq<real>, ys: seq<real>, factor: real)
    requires |ys| == |xs| && forall i :: 0 <= i < |xs| ==> ys[i] == xs[i] * factor
    ensures SumOf(ys) == SumOf(xs) * factor
  {
    if xs != [] {
      SumTimes(xs[1..], ys[1..], factor);
    }
  }

  lemma {:induction false} SumOfConcat(xs: seq<real>, ys: seq<real>)
    ensures SumOf(xs + ys) == SumOf(xs) + SumOf(ys)
  {
    if xs == [] {
      assert xs + ys == ys;
    } else {
      SumOfConcat(xs[1..], ys);
      assert (xs + ys)[1..] == xs[1..] + ys;
    }
  }

  lemma {:induction false} RealProduct(a: nat, b: nat)
    ensures (a * b) as real == a as real * b as real
  {
    if a > 0 {
      RealProduct(a - 1, b);
      SuccTimes(a - 1, b);
    }
  }

  lemma {:induction false} QuotientTimes(a: real, b: real, c: real)
    requires c != 0.0
    ensures a * b / c == a * (b / c)
  {
  }

  /** The factor is the number of turns times the rate at which every single advantage counts. */
  lemma {:induction false} FactorIs(turns: nat, ranks: nat, globalBatchSize: nat, rate: real)
    requires globalBatchSize > 0 && rate == ranks as real / globalBatchSize as real
    ensures GroupFactor(turns, ranks, globalBatchSize) == turns as real * rate
  {
    RealProduct(turns, ranks);
    QuotientTimes(turns as real, ranks as real, globalBatchSize as real);
  }

  lemma {:induction false} GroupSum(xs: seq<real>, ranks: nat, globalBatchSize: nat, rate: real) returns (factor: real)
    requires globalBatchSize > 0 && rate == ranks as real / globalBatchSize as real
    ensures factor == |xs| as real * rate && SumOf(GroupScaled(xs, ranks, globalBatchSize)) == SumOf(xs) * factor
  {
    factor := GroupFactor(|xs|, ranks, globalBatchSize);
    SumTimes(xs, GroupScaled(xs, ranks, globalBatchSize), factor);
    FactorIs(|xs|, ranks, globalBatchSize, rate);
  }

  lemma {:induction false} MeanIs(sum: real, scaled: real, factor: real, count: real, rate: real)
    requires count != 0.0 && factor == count * rate && scaled == sum * factor
    ensures scaled / count == sum * rate
  {
    assert sum * (count * rate) == sum * rate * count;
  }

  lemma {:induction false} ScaledMean(xs: seq<real>, ranks: nat, globalBatchSize: nat, rate: real) returns (mean: real)
    requires xs != [] && globalBatchSize > 0 && rate == ranks as real / globalBatchSize as real
    ensures mean == MeanOf(GroupScaled(xs, ranks, globalBatchSize)) && mean == SumOf(xs) * rate
  {
    var factor := GroupSum(xs, ranks, globalBatchSize, rate);
    mean := MeanOf(GroupScaled(xs, ranks, globalBatchSize));
    MeanIs(SumOf(xs), SumOf(GroupScaled(xs, ranks, globalBatchSize)), factor, |xs| as real, rate);
  }

  function LocalSums(local: seq<seq<real>>): (r: seq<real>)
    ensures |r| == |local| && forall b :: 0 <= b < |local| ==> r[b] == SumOf(local[b])
  {
    seq(|local|, b requires 0 <= b < |local| => SumOf(local[b]))
  }

  lemma {:induction false} LocalSumsTotal(local: seq<seq<real>>)
    ensures SumOf(LocalSums(local)) == SumOf(Flatten(local))
  {
    if local != [] {
      LocalSumsTotal(local[1..]);
      SumOfConcat(local[0], Flatten(local[1..]));
      assert LocalSums(local)[1..] == LocalSums(local[1..]);
    }
  }

  lemma {:induction false} MeanAt(local: seq<seq<real>>, ranks: nat, globalBatchSize: nat, rate: real, b: nat)
    requires globalBatchSize > 0 && rate == ranks as real / globalBatchSize as real
    requires b < |local| && forall b :: 0 <= b < |local| ==> local[b] != []
    ensures ScaledMeans(local, ranks, globalBatchSize)[b] == LocalSums(local)[b] * rate
  {
    var mean := ScaledMean(local[b], ranks, globalBatchSize, rate);
  }

  lemma {:induction false} MeansAre(local: seq<seq<real>>, ranks: nat, globalBatchSize: nat, rate: real)
    requires globalBatchSize > 0 && rate == ranks as real / globalBatchSize as real
    requires forall b :: 0 <= b < |local| ==> local[b] != []
    ensures SumOf(ScaledMeans(local, ranks, globalBatchSize)) == SumOf(LocalSums(local)) * rate
  {
    forall b: nat | b < |local| ensures ScaledMeans(local, ranks, globalBatchSize)[b] == LocalSums(local)[b] * rate {
      MeanAt(local, ranks, globalBatchSize, rate, b);
    }
    SumTimes(LocalSums(local), ScaledMeans(local, ranks, globalBatchSize), rate);
  }

  lemma {:induction false} MeanOfMeans(total: real, means: real, ranks: real, size: real, rate: real)
    requires ranks != 0.0 && size != 0.0 && rate * size == ranks && means == total * rate
    ensures means / ranks == total / size
  {
    assert total * rate * size == total * ranks;
  }

  lemma {:induction false} MeansByRate(local: seq<seq<real>>, ranks: nat, globalBatchSize: nat)
    returns (means: real, total: real, rate: real)
    requires ranks > 0 && globalBatchSize > 0 && forall b :: 0 <= b < |local| ==> local[b] != []
    ensures means == SumOf(ScaledMeans(local, ranks, globalBatchSize)) && total == SumOf(Flatten(local))
    ensures rate * globalBatchSize as real == ranks as real && means == total * rate
  {
    rate := ranks as real / globalBatchSize as real;
    MeansAre(local, ranks, globalBatchSize, rate);
    LocalSumsTotal(local);
    means, total := SumOf(ScaledMeans(local, ranks, globalBatchSize)), SumOf(Flatten(local));
  }

  lemma {:induction false} MeansQuotient(local: seq<seq<real>>, ranks: nat, globalBatchSize: nat)
    returns (means: real, total: real)
    requires ranks > 0 && globalBatchSize > 0 && forall b :: 0 <= b < |local| ==> local[b] != []
    ensures means == SumOf(ScaledMeans(local, ranks, globalBatchSize)) && total == SumOf(Flatten(local))
    ensures means / ranks as real == total / globalBatchSize as real
  {
    var rate: real;
    means, total, rate := MeansByRate(local, ranks, globalBatchSize);
    MeanOfMeans(total, means, ranks as real, globalBatchSize as real, rate);
  }

  /**
   After the group stage the mean over the ranks of their mean advantages is the sum over all turns
   of all ranks divided by the global batch size, however the turns are spread over the ranks.
  */
  lemma {:induction false} GroupStageMean(local: seq<seq<real>>, globalBatchSize: nat)
    requires local != [] && globalBatchSize > 0 && forall b :: 0 <= b < |local| ==> local[b] != []
    ensures MeanOf(ScaledMeans(local, |local|, globalBatchSize)) == SumOf(Flatten(local)) / globalBatchSize as real
  {
    var means, total := MeansQuotient(local, |local|, globalBatchSize);
  }

  // ---------------------------------------------------------------- the class

  /** The scaling context and the tensors it rescales, one value per turn. */
  class LossScaler {
    const batch: Batch
    const scales: array<real>
    const advantages: array<real>
    var applied: seq<Stage>

    ghost predicate Valid()
      reads this
    {
      BatchOk(batch) && scales.Length == advantages.Length == |batch.trajs| && scales != advantages && applied <= ORDER
    }

    constructor (batch: Batch, lossScales: seq<real>, advantages: seq<real>)
      requires BatchOk(batch) && |lossScales| == |advantages| == |batch.trajs|
      ensures Valid() && this.batch == batch && applied == [] && fresh(scales) && fresh(this.advantages)
      ensures scales[..] == lossScales && this.advantages[..] == advantages
    {
      this.batch, applied := batch, [];
      var n := |batch.trajs|;
      var initial := new real[n](i requires 0 <= i < n && n == |lossScales| => lossScales[i]);
      scales := initial;
      this.advantages := new real[n](i requires 0 <= i < n && n == |advantages| => advantages[i]);
    }

    /** Appends the stage, or fails the assertion. */
    method Enter(stage: Stage) returns (ok: bool)
      requires Valid()
      modifies this
      ensures Valid() && applied == Apply(old(applied), stage) && (ok <==> Allowed(old(applied), stage))
    {
      StepInOrder(applied, stage);
      ok := Allowed(applied, stage);
      if ok {
        applied := applied + [stage];
      }
    }

    /** `group_scale`: all advantages times sequences * ranks / global batch size. */
    method GroupScale(ranks: nat, globalBatchSize: nat) returns (r: Result<()>)
      requires Valid()
      modifies this, advantages
      ensures Valid() && applied == Apply(old(applied), GroupLevel)
      ensures r == if !Allowed(old(applied), GroupLevel) then Err(AssertionError)
                   else if globalBatchSize == 0 then Err(ZeroDivisionError) else Ok(())
      ensures r.Err? ==> advantages[..] == old(advantages[..])
      ensures r.Ok? ==> advantages[..] == GroupScaled(old(advantages[..]), ranks, globalBatchSize)
    {
      var ok := Enter(GroupLevel);
      if !ok {
        return Err(AssertionError);
      }
      if globalBatchSize == 0 {
        return Err(ZeroDivisionError);
      }
      for n := 0 to advantages.Length
        invariant Valid() && applied == Apply(old(applied), GroupLevel)
        invariant forall i :: 0 <= i < n ==>
          advantages[i] == GroupScaled(old(advantages[..]), ranks, globalBatchSize)[i]
        invariant forall i :: n <= i < advantages.Length ==> advantages[i] == old(advantages[i])
      {
        advantages[n] := advantages[n] * GroupFactor(|batch.trajs|, ranks, globalBatchSize);
      }
      assert advantages[..] == GroupScaled(old(advantages[..]), ranks, globalBatchSize);
      r := Ok(());
    }

    /** `agent_scale`. */
    method AgentScale() returns (r: Result<()>)
      requires Valid()
      modifies this, scales
      ensures Valid() && applied == Apply(old(applied), AgentLevel)
      ensures r == if Allowed(old(applied), AgentLevel) then Ok(()) else Err(AssertionError)
      ensures r.Err? ==> scales[..] == old(scales[..])
      ensures r.Ok? ==> RescaledAll(old(scales[..]), scales[..], AgentFactors(batch))
    {
      var ok := Enter(AgentLevel);
      if !ok {
        return Err(AssertionError);
      }
      var order, groups := GroupBy(batch.trajs, Range(|batch.trajs|));
      KeysDistinct(batch.trajs, Range(|batch.trajs|));
      for m := 0 to |order|
        invariant Valid() && applied == Apply(old(applied), AgentLevel)
        invariant Rescaled(old(scales[..]), scales[..], OfTrajs(batch, order[..m]), AgentFactors(batch))
      {
        var traj := order[m];
        assert traj in order;
        ghost var before := scales[..];
        ScaleTraj(batch, scales, traj, groups[traj]);
        NextTraj(batch, order, m);
        RescaledTwice(old(scales[..]), before, scales[..], OfTrajs(batch, order[..m]),
                      OfAgents(batch, traj, AgentsOf(batch, traj)), AgentFactors(batch));
      }
      assert order[..|order|] == order;
      AllTrajs(batch);
      r := Ok(());
    }

    /** `turn_scale`: divides by zero exactly if some agent has no response token. */
    method TurnScale() returns (r: Result<()>)
      requires Valid()
      modifies this, scales
      ensures Valid() && applied == Apply(old(applied), TurnLevel)
      ensures r == if !Allowed(old(applied), TurnLevel) then Err(AssertionError)
                   else if !AllSpeak(batch) then Err(ZeroDivisionError) else Ok(())
      ensures r.Ok? ==> RescaledAll(old(scales[..]), scales[..], TurnFactors(batch))
    {
      var ok := Enter(TurnLevel);
      if !ok {
        return Err(AssertionError);
      }
      SpeakIff(batch);
      var order, groups := GroupBy(batch.trajs, Range(|batch.trajs|));
      KeysDistinct(batch.trajs, Range(|batch.trajs|));
      for m := 0 to |order|
        invariant Valid() && applied == Apply(old(applied), TurnLevel) && TrajsSpeak(batch, order[..m])
        invariant Rescaled(old(scales[..]), scales[..], OfTrajs(batch, order[..m]), TurnFactors(batch))
      {
        var traj := order[m];
        assert traj in order;
        ghost var before := scales[..];
        ok := RefineTraj(batch, scales, traj, groups[traj]);
        if !ok {
          assert !TrajSpeaks(batch, order[m]) && !TrajsSpeak(batch, order);
          return Err(ZeroDivisionError);
        }
        assert TrajSpeaks(batch, order[m]);
        NextTraj(batch, order, m);
        RescaledTwice(old(scales[..]), before, scales[..], OfTrajs(batch, order[..m]),
                      OfAgents(batch, traj, AgentsOf(batch, traj)), TurnFactors(batch));
      }
      assert order[..|order|] == order;
      AllTrajs(batch);
      r := Ok(());
    }
  }

  /** From unit scales the agent stage leaves the agent weights. */
  lemma {:induction false} AgentStageWeights(b: Batch, unit: seq<real>, mid: seq<real>, w: nat -> real)
    requires BatchOk(b) && |unit| == |b.trajs| && RescaledAll(unit, mid, AgentFactors(b))
    requires forall i :: 0 <= i < |unit| ==> unit[i] == 1.0
    requires forall i: nat {:trigger w(i)} :: i < |b.trajs| ==> w(i) == mid[i]
    ensures AgentWeights(b, w)
  {
    forall i: nat | i < |b.trajs| ensures w(i) == AgentFactorOf(b, i) {
      assert mid[i] == unit[i] * AgentFactors(b)(i);
      OneTimes(AgentFactorOf(b, i));
    }
  }

  /** And the turn stage leaves the turn weights. */
  lemma {:induction false} TurnStageWeights(b: Batch, mid: seq<real>, end: seq<real>, w: nat -> real, v: nat -> real)
    requires BatchOk(b) && AllSpeak(b) && |mid| == |b.trajs| && AgentWeights(b, w)
    requires RescaledAll(mid, end, TurnFactors(b))
    requires forall i: nat {:trigger w(i)} :: i < |b.trajs| ==> w(i) == mid[i]
    requires forall i: nat {:trigger v(i)} :: i < |b.trajs| ==> v(i) == end[i]
    ensures TurnWeights(b, v)
  {
    forall i: nat | i < |b.trajs| ensures Speaks(b, i) && v(i) == AgentFactorOf(b, i) * TurnFactorOf(b, i) {
      assert Speaks(b, i) && w(i) == AgentFactorOf(b, i);
      assert end[i] == mid[i] * TurnFactors(b)(i);
    }
  }
}
