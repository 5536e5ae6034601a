/**
 Which turns of a trajectory can share one packed sequence. Turns are taken by prompt length; each
 one is linked to the first later turn that extends its tokens, is not already the continuation of
 another turn, and whose response overlaps its own by at most one position. The links form chains.
*/
module TurnChains {
  import opened Sequences
  import opened Grouping

  /** One row of the actor batch: a prompt, a response, and per-token values. */
  datatype Turn = Turn(
    traj: int,
    ids: seq<int>,
    prompt: nat,
    resp: nat,
    mask: seq<bool>,
    reward: real,
    logps: seq<real>,
    advs: seq<real>,
    scales: seq<real>
  )

  function End(t: Turn): nat {
    t.prompt + t.resp
  }

  /** The positions of a response: from the end of the prompt to the end of the tokens. */
  function Span(len: nat, first: nat, end: nat): (r: seq<bool>)
    ensures |r| == len && forall p :: 0 <= p < len ==> r[p] == (first <= p < end)
  {
    seq(len, p requires 0 <= p < len => first <= p < end)
  }

  /** A row of the given length whose mask is the span of its response. */
  ghost predicate TurnOk(t: Turn, len: nat) {
    && |t.ids| == |t.logps| == |t.advs| == |t.scales| == len && End(t) <= len
    && t.mask == Span(len, t.prompt, End(t))
  }

  ghost predicate TurnsOk(turns: seq<Turn>, len: nat) {
    forall i :: 0 <= i < |turns| ==> TurnOk(turns[i], len)
  }

  function CountTo(mask: seq<bool>, n: nat): nat
    requires n <= |mask|
  {
    if n == 0 then 0 else CountTo(mask, n - 1) + if mask[n - 1] then 1 else 0
  }

  function Both(a: seq<bool>, b: seq<bool>): (r: seq<bool>)
    requires |a| == |b|
    ensures |r| == |a|
  {
    seq(|a|, i requires 0 <= i < |a| => a[i] && b[i])
  }

  /** The right row can continue the left one. */
  predicate Compatible(left: Turn, right: Turn)
    requires |left.mask| == |right.mask| && End(left) <= |left.ids| && End(left) <= |right.ids|
  {
    CountTo(Both(left.mask, right.mask), |left.mask|) <= 1 && left.ids[..End(left)] == right.ids[..End(left)]
  }

  // ---------------------------------------------------------------- turns by trajectory

  function TrajNumbers(turns: seq<Turn>): (r: seq<int>)
    ensures |r| == |turns| && forall i :: 0 <= i < |r| ==> r[i] == turns[i].traj
  {
    seq(|turns|, i requires 0 <= i < |turns| => turns[i].traj)
  }

  /** The trajectories of the turns, in order of first appearance. */
  function Trajs(turns: seq<Turn>): seq<int> {
    Keys(TrajNumbers(turns), Range(|turns|))
  }

  /** The turns that belong to the trajectory. */
  function TurnsOf(turns: seq<Turn>, traj: int): (r: seq<nat>)
    ensures forall a :: 0 <= a < |r| ==> r[a] < |turns|
  {
    Members(TrajNumbers(turns), Range(|turns|), traj)
  }

  /** Inserts a turn behind all turns whose prompt is not longer. */
  function InsertByPrompt(turns: seq<Turn>, sorted: seq<nat>, x: nat): (r: seq<nat>)
    requires x < |turns| && forall a :: 0 <= a < |sorted| ==> sorted[a] < |turns|
    ensures forall a :: 0 <= a < |r| ==> r[a] < |turns|
  {
    if sorted == [] || turns[sorted[|sorted| - 1]].prompt <= turns[x].prompt then sorted + [x]
    else InsertByPrompt(turns, sorted[..|sorted| - 1], x) + [sorted[|sorted| - 1]]
  }

  ghost predicate NotLonger(turns: seq<Turn>, s: seq<nat>, a: nat, b: nat)
    requires a < |s| && b < |s|
  {
    s[a] < |turns| && s[b] < |turns| && turns[s[a]].prompt <= turns[s[b]].prompt
  }

  ghost predicate ByPrompt(turns: seq<Turn>, s: seq<nat>) {
    && (forall a :: 0 <= a < |s| ==> s[a] < |turns|)
    && (forall a, b {:trigger NotLonger(turns, s, a, b)} :: 0 <= a < b < |s| ==> NotLonger(turns, s, a, b))
  }

  lemma {:induction false} InsertByPromptMultiset(turns: seq<Turn>, sorted: seq<nat>, x: nat)
    requires x < |turns| && forall a :: 0 <= a < |sorted| ==> sorted[a] < |turns|
    ensures multiset(InsertByPrompt(turns, sorted, x)) == multiset(sorted) + multiset{x}
  {
    if sorted != [] {
      var n := |sorted| - 1;
      InsertByPromptMultiset(turns, sorted[..n], x);
      assert sorted == sorted[..n] + [sorted[n]];
    }
  }

  lemma {:induction false} ByPromptFront(turns: seq<Turn>, sorted: seq<nat>, n: nat)
    requires ByPrompt(turns, sorted) && n <= |sorted|
    ensures ByPrompt(turns, sorted[..n])
  {
    forall a, b | 0 <= a < b < n ensures NotLonger(turns, sorted[..n], a, b) {
      assert NotLonger(turns, sorted, a, b);
    }
  }

  lemma {:induction false} ByPromptPush(turns: seq<Turn>, sorted: seq<nat>, x: nat)
    requires ByPrompt(turns, sorted) && x < |turns|
    requires forall a :: 0 <= a < |sorted| ==> turns[sorted[a]].prompt <= turns[x].prompt
    ensures ByPrompt(turns, sorted + [x])
  {
    var r := sorted + [x];
    forall a, b | 0 <= a < b < |r| ensures NotLonger(turns, r, a, b) {
      assert b < |sorted| ==> NotLonger(turns, sorted, a, b);
    }
  }

  lemma {:induction false} LongestLast(turns: seq<Turn>, sorted: seq<nat>, a: nat)
    requires ByPrompt(turns, sorted) && a < |sorted|
    ensures turns[sorted[a]].prompt <= turns[sorted[|sorted| - 1]].prompt
  {
    if a < |sorted| - 1 {
      assert NotLonger(turns, sorted, a, |sorted| - 1);
    }
  }

  lemma {:induction false} InsertByPromptOk(turns: seq<Turn>, sorted: seq<nat>, x: nat)
    requires ByPrompt(turns, sorted) && x < |turns|
    ensures ByPrompt(turns, InsertByPrompt(turns, sorted, x))
    ensures multiset(InsertByPrompt(turns, sorted, x)) == multiset(sorted) + multiset{x}
  {
    InsertByPromptMultiset(turns, sorted, x);
    if sorted != [] {
      var n := |sorted| - 1;
      forall a | 0 <= a < |sorted| ensures turns[sorted[a]].prompt <= turns[sorted[n]].prompt {
        LongestLast(turns, sorted, a);
      }
      if turns[sorted[n]].prompt <= turns[x].prompt {
        ByPromptPush(turns, sorted, x);
      } else {
        var front := sorted[..n];
        ByPromptFront(turns, sorted, n);
        InsertByPromptOk(turns, front, x);
        var r' := InsertByPrompt(turns, front, x);
        forall a | 0 <= a < |r'| ensures turns[r'[a]].prompt <= turns[sorted[n]].prompt {
          InsertedOrOld(front, x, r', a);
        }
        ByPromptPush(turns, r', sorted[n]);
      }
    }
  }

  /** Sorted by prompt length, turns of equal prompt in index order. */
  function SortByPrompt(turns: seq<Turn>, idxes: seq<nat>): (r: seq<nat>)
    requires forall a :: 0 <= a < |idxes| ==> idxes[a] < |turns|
    ensures forall a :: 0 <= a < |r| ==> r[a] < |turns|
  {
    if idxes == [] then [] else InsertByPrompt(turns, SortByPrompt(turns, idxes[..|idxes| - 1]), idxes[|idxes| - 1])
  }

  lemma {:induction false} SortByPromptOk(turns: seq<Turn>, idxes: seq<nat>)
    requires forall a :: 0 <= a < |idxes| ==> idxes[a] < |turns|
    ensures ByPrompt(turns, SortByPrompt(turns, idxes))
    ensures multiset(SortByPrompt(turns, idxes)) == multiset(idxes)
  {
    if idxes != [] {
      var front, last := idxes[..|idxes| - 1], idxes[|idxes| - 1];
      SortByPromptOk(turns, front);
      InsertByPromptOk(turns, SortByPrompt(turns, front), last);
      assert idxes == front + [last];
    }
  }

  // ---------------------------------------------------------------- chains

  /** The chains so far, in the order of `pack_map`, and the turns that continue another one. */
  datatype Links = Links(chains: seq<seq<nat>>, passed: set<nat>)

  /** The chain that ends with the turn, or the number of chains. */
  function ChainEnding(chains: seq<seq<nat>>, x: nat): (a: nat)
    ensures a <= |chains|
    ensures a < |chains| ==> chains[a] != [] && chains[a][|chains[a]| - 1] == x
    ensures forall b :: 0 <= b < a ==> chains[b] == [] || chains[b][|chains[b]| - 1] != x
  {
    if chains == [] then 0
    else if chains[0] != [] && chains[0][|chains[0]| - 1] == x then 0
    else 1 + ChainEnding(chains[1..], x)
  }

  /** Links right behind left: the chain that ends with left moves to the end of the map and grows by right. */
  function Extend(chains: seq<seq<nat>>, left: nat, right: nat): seq<seq<nat>> {
    var a := ChainEnding(chains, left);
    if a < |chains| then RemoveAt(chains, a) + [chains[a] + [right]] else chains + [[left, right]]
  }

  /** The first of the later turns that can continue the left one. */
  function FirstRight(turns: seq<Turn>, len: nat, idxes: seq<nat>, left: nat, start: nat, passed: set<nat>): (r: nat)
    requires start <= |idxes| && left < |turns| && (forall a :: 0 <= a < |idxes| ==> idxes[a] < |turns|)
    requires TurnsOk(turns, len)
    ensures start <= r <= |idxes|
    ensures r < |idxes| ==> idxes[r] !in passed && Compatible(turns[left], turns[idxes[r]])
    ensures forall q :: start <= q < r ==> idxes[q] in passed || !Compatible(turns[left], turns[idxes[q]])
    decreases |idxes| - start
  {
    if start == |idxes| || (idxes[start] !in passed && Compatible(turns[left], turns[idxes[start]])) then start
    else FirstRight(turns, len, idxes, left, start + 1, passed)
  }

  /** The links after trying the first n turns as left ends. */
  function LinkTraj(turns: seq<Turn>, len: nat, idxes: seq<nat>, n: nat, s: Links): Links
    requires n <= |idxes| && (forall a :: 0 <= a < |idxes| ==> idxes[a] < |turns|)
    requires TurnsOk(turns, len)
  {
    if n == 0 then s
    else
      var s' := LinkTraj(turns, len, idxes, n - 1, s);
      var r := FirstRight(turns, len, idxes, idxes[n - 1], n, s'.passed);
      if r == |idxes| then s' else Links(Extend(s'.chains, idxes[n - 1], idxes[r]), s'.passed + {idxes[r]})
  }

  function LinkTrajs(turns: seq<Turn>, len: nat, trajs: seq<int>, n: nat): Links
    requires n <= |trajs| && TurnsOk(turns, len)
  {
    if n == 0 then Links([], {})
    else
      var idxes := SortByPrompt(turns, TurnsOf(turns, trajs[n - 1]));
      LinkTraj(turns, len, idxes, |idxes|, LinkTrajs(turns, len, trajs, n - 1))
  }

  /** The values of `pack_map` with their keys appended. */
  function ChainsOf(turns: seq<Turn>, len: nat): seq<seq<nat>>
    requires TurnsOk(turns, len)
  {
    LinkTrajs(turns, len, Trajs(turns), |Trajs(turns)|).chains
  }

  // ---------------------------------------------------------------- what the chains are

  /** The right turn continues the left one in the same trajectory. */
  ghost predicate LinkOk(turns: seq<Turn>, len: nat, left: nat, right: nat)
    requires TurnsOk(turns, len)
  {
    && left < |turns| && right < |turns| && turns[left].traj == turns[right].traj
    && turns[left].prompt <= turns[right].prompt && Compatible(turns[left], turns[right])
  }

  ghost predicate ChainOk(turns: seq<Turn>, len: nat, c: seq<nat>)
    requires TurnsOk(turns, len)
  {
    && |c| >= 2 && (forall a :: 0 <= a < |c| ==> c[a] < |turns|)
    && forall j, k {:trigger LinkOk(turns, len, c[j], c[k])} :: 0 <= j && k == j + 1 && k < |c| ==>
         LinkOk(turns, len, c[j], c[k])
  }

  ghost predicate ChainsOk(turns: seq<Turn>, len: nat, chains: seq<seq<nat>>)
    requires TurnsOk(turns, len)
  {
    (forall a :: 0 <= a < |chains| ==> ChainOk(turns, len, chains[a])) && Once(Flatten<nat>(chains))
  }

  ghost predicate TailIn(c: seq<nat>, passed: set<nat>) {
    forall j :: 1 <= j < |c| ==> c[j] in passed
  }

  /** Turns that continue another one are remembered as passed. */
  ghost predicate PassedOk(s: Links) {
    forall a :: 0 <= a < |s.chains| ==> TailIn(s.chains[a], s.passed)
  }

  ghost predicate OnlyLast(c: seq<nat>, x: nat) {
    forall j :: 0 <= j < |c| - 1 ==> c[j] != x
  }

  /** The turn is not continued by any other one so far. */
  ghost predicate NotLeft(chains: seq<seq<nat>>, x: nat) {
    forall a :: 0 <= a < |chains| ==> OnlyLast(chains[a], x)
  }

  lemma {:induction false} NotLeftLast(chains: seq<seq<nat>>, x: nat) returns (a: nat)
    requires x in Flatten<nat>(chains) && NotLeft(chains, x)
    ensures a < |chains| && chains[a] != [] && chains[a][|chains[a]| - 1] == x
  {
    a := FlattenFind<nat>(chains, x);
  }

  lemma {:induction false} FlattenRemoveAt(parts: seq<seq<nat>>, i: nat)
    requires i < |parts|
    ensures multiset(Flatten<nat>(parts)) == multiset(Flatten<nat>(RemoveAt(parts, i))) + multiset(parts[i])
  {
    FlattenConcat<nat>(parts[..i], parts[i + 1..]);
    FlattenConcat<nat>(parts[..i], parts[i..]);
    assert parts == parts[..i] + parts[i..];
    assert parts[i..][1..] == parts[i + 1..];
  }

  lemma {:induction false} FreshRight(s: Links, right: nat)
    requires PassedOk(s) && NotLeft(s.chains, right) && right !in s.passed
    requires forall a :: 0 <= a < |s.chains| ==> |s.chains[a]| >= 2
    ensures right !in Flatten<nat>(s.chains)
  {
    if right in Flatten<nat>(s.chains) {
      var b := NotLeftLast(s.chains, right);
    }
  }

  lemma {:induction false} FreshLeft(chains: seq<seq<nat>>, left: nat)
    requires NotLeft(chains, left) && ChainEnding(chains, left) == |chains|
    ensures left !in Flatten<nat>(chains)
  {
    if left in Flatten<nat>(chains) {
      var b := NotLeftLast(chains, left);
    }
  }

  /** A new link neither branches nor joins chains. */
  lemma {:induction false} ExtendOnce(chains: seq<seq<nat>>, left: nat, right: nat)
    requires Once(Flatten<nat>(chains)) && left != right && right !in Flatten<nat>(chains)
    requires ChainEnding(chains, left) == |chains| ==> left !in Flatten<nat>(chains)
    ensures Once(Flatten<nat>(Extend(chains, left, right)))
  {
    var a := ChainEnding(chains, left);
    var flat := Flatten<nat>(chains);
    if a < |chains| {
      FlattenRemoveAt(chains, a);
      FlattenPush<nat>(RemoveAt(chains, a), chains[a] + [right]);
      OnceAdd(flat, Flatten<nat>(Extend(chains, left, right)), right);
    } else {
      FlattenPush<nat>(chains, [left, right]);
      OnceAdd(flat, flat + [left], left);
      OnceAdd(flat + [left], flat + [left, right], right);
    }
  }

  /** What holds of every chain and of the one with the new link holds of every chain of the extension. */
  lemma {:induction false} ExtendEvery(p: seq<nat> -> bool, chains: seq<seq<nat>>, left: nat, right: nat)
    requires Every(p, chains)
    requires ChainEnding(chains, left) == |chains| ==> p([left, right])
    requires ChainEnding(chains, left) < |chains| ==> p(chains[ChainEnding(chains, left)] + [right])
    ensures Every(p, Extend(chains, left, right))
  {
    var a := ChainEnding(chains, left);
    if a < |chains| {
      RemoveEvery(p, chains, a);
    }
  }

  lemma {:induction false} ExtendOk(turns: seq<Turn>, len: nat, s: Links, left: nat, right: nat)
    requires TurnsOk(turns, len) && ChainsOk(turns, len, s.chains) && PassedOk(s) && left != right
    requires NotLeft(s.chains, left) && NotLeft(s.chains, right)
    requires right !in s.passed && LinkOk(turns, len, left, right)
    ensures ChainsOk(turns, len, Extend(s.chains, left, right))
  {
    var a := ChainEnding(s.chains, left);
    assert forall b :: 0 <= b < |s.chains| ==> ChainOk(turns, len, s.chains[b]);
    FreshRight(s, right);
    if a == |s.chains| {
      FreshLeft(s.chains, left);
    } else {
      ExtendedChainOk(turns, len, s.chains[a], right);
    }
    ExtendOnce(s.chains, left, right);
    ExtendEvery(c => TurnsOk(turns, len) && ChainOk(turns, len, c), s.chains, left, right);
  }

  lemma {:induction false} ExtendPassedOk(s: Links, left: nat, right: nat)
    requires PassedOk(s)
    ensures PassedOk(Links(Extend(s.chains, left, right), s.passed + {right}))
  {
    var a := ChainEnding(s.chains, left);
    var passed := s.passed + {right};
    assert a < |s.chains| ==> TailIn(s.chains[a], s.passed);
    ExtendEvery(c => TailIn(c, passed), s.chains, left, right);
  }

  lemma {:induction false} ExtendedChainOk(turns: seq<Turn>, len: nat, c: seq<nat>, right: nat)
    requires TurnsOk(turns, len) && ChainOk(turns, len, c) && LinkOk(turns, len, c[|c| - 1], right)
    ensures ChainOk(turns, len, c + [right])
  {
    var c' := c + [right];
    forall j, k | 0 <= j && k == j + 1 && k < |c'| ensures LinkOk(turns, len, c'[j], c'[k]) {
      assert k < |c| ==> LinkOk(turns, len, c[j], c[k]);
    }
  }

  lemma {:induction false} ExtendNotLeft(chains: seq<seq<nat>>, left: nat, right: nat, z: nat)
    requires NotLeft(chains, z) && z != left
    ensures NotLeft(Extend(chains, left, right), z)
  {
    var a := ChainEnding(chains, left);
    assert a < |chains| ==> OnlyLast(chains[a], z) && OnlyLast(chains[a] + [right], z);
    ExtendEvery(c => OnlyLast(c, z), chains, left, right);
  }

  /** Turns of one trajectory in the order in which they are tried. */
  ghost predicate TrialOrder(turns: seq<Turn>, traj: int, idxes: seq<nat>) {
    ByPrompt(turns, idxes) && Once(idxes) && forall a :: 0 <= a < |idxes| ==> turns[idxes[a]].traj == traj
  }

  lemma {:induction false} LinkOneOk(turns: seq<Turn>, len: nat, traj: int, idxes: seq<nat>, n: nat, r: nat, s: Links)
    requires TurnsOk(turns, len) && 0 < n <= r < |idxes| && TrialOrder(turns, traj, idxes)
    requires ChainsOk(turns, len, s.chains) && PassedOk(s)
    requires forall k :: n - 1 <= k < |idxes| ==> NotLeft(s.chains, idxes[k])
    requires idxes[r] !in s.passed && Compatible(turns[idxes[n - 1]], turns[idxes[r]])
    ensures ChainsOk(turns, len, Extend(s.chains, idxes[n - 1], idxes[r]))
    ensures PassedOk(Links(Extend(s.chains, idxes[n - 1], idxes[r]), s.passed + {idxes[r]}))
    ensures forall k :: n <= k < |idxes| ==> NotLeft(Extend(s.chains, idxes[n - 1], idxes[r]), idxes[k])
  {
    OnceApart(idxes, n - 1, r);
    assert NotLonger(turns, idxes, n - 1, r);
    ExtendOk(turns, len, s, idxes[n - 1], idxes[r]);
    ExtendPassedOk(s, idxes[n - 1], idxes[r]);
    forall k | n <= k < |idxes| ensures NotLeft(Extend(s.chains, idxes[n - 1], idxes[r]), idxes[k]) {
      OnceApart(idxes, n - 1, k);
      ExtendNotLeft(s.chains, idxes[n - 1], idxes[r], idxes[k]);
    }
  }

  lemma {:induction false} LinkTrajOk(turns: seq<Turn>, len: nat, traj: int, idxes: seq<nat>, n: nat, s: Links)
    requires TurnsOk(turns, len) && n <= |idxes| && TrialOrder(turns, traj, idxes)
    requires ChainsOk(turns, len, s.chains) && PassedOk(s)
    requires forall k :: 0 <= k < |idxes| ==> NotLeft(s.chains, idxes[k])
    ensures ChainsOk(turns, len, LinkTraj(turns, len, idxes, n, s).chains)
    ensures PassedOk(LinkTraj(turns, len, idxes, n, s))
    ensures forall k :: n <= k < |idxes| ==> NotLeft(LinkTraj(turns, len, idxes, n, s).chains, idxes[k])
    ensures forall z: nat :: z !in idxes && NotLeft(s.chains, z) ==>
      NotLeft(LinkTraj(turns, len, idxes, n, s).chains, z)
  {
    if n > 0 {
      LinkTrajOk(turns, len, traj, idxes, n - 1, s);
      var s' := LinkTraj(turns, len, idxes, n - 1, s);
      var left, r := idxes[n - 1], FirstRight(turns, len, idxes, idxes[n - 1], n, s'.passed);
      if r < |idxes| {
        LinkOneOk(turns, len, traj, idxes, n, r, s');
        forall z: nat | z !in idxes && NotLeft(s.chains, z) ensures NotLeft(Extend(s'.chains, left, idxes[r]), z) {
          ExtendNotLeft(s'.chains, left, idxes[r], z);
        }
      }
    }
  }

  lemma {:induction false} TrialOrderOf(turns: seq<Turn>, traj: int)
    ensures TrialOrder(turns, traj, SortByPrompt(turns, TurnsOf(turns, traj)))
    ensures forall z: nat :: z in SortByPrompt(turns, TurnsOf(turns, traj)) ==> z < |turns| && turns[z].traj == traj
  {
    var own := TurnsOf(turns, traj);
    var idxes := SortByPrompt(turns, own);
    SortByPromptOk(turns, own);
    TurnsOfOnce(turns, traj);
    OnceSame(own, idxes);
    forall z: nat | z in idxes ensures z < |turns| && turns[z].traj == traj {
      assert z in multiset(idxes);
      TurnsOfMember(turns, traj, z);
    }
    forall a | 0 <= a < |idxes| ensures turns[idxes[a]].traj == traj {
      assert idxes[a] in idxes;
    }
  }

  lemma {:induction false} TurnsOfMember(turns: seq<Turn>, traj: int, i: nat)
    ensures i in TurnsOf(turns, traj) <==> i < |turns| && turns[i].traj == traj
  {
    assert i < |turns| ==> Range(|turns|)[i] == i;
    MemberIff(TrajNumbers(turns), Range(|turns|), traj, i);
  }

  lemma {:induction false} TurnsOfOnce(turns: seq<Turn>, traj: int)
    ensures Once(TurnsOf(turns, traj))
  {
    RangeDistinct(|turns|);
    MembersDistinct(TrajNumbers(turns), Range(|turns|), traj);
    DistinctOnce(TurnsOf(turns, traj));
  }

  /** Linking one trajectory's turns leaves the turns of the others alone. */
  lemma {:induction false} LinkOneTraj(turns: seq<Turn>, len: nat, traj: int, s: Links)
    requires TurnsOk(turns, len) && ChainsOk(turns, len, s.chains) && PassedOk(s)
    requires forall z: nat :: z < |turns| && turns[z].traj == traj ==> NotLeft(s.chains, z)
    ensures var idxes := SortByPrompt(turns, TurnsOf(turns, traj));
      var s' := LinkTraj(turns, len, idxes, |idxes|, s);
      && ChainsOk(turns, len, s'.chains) && PassedOk(s')
      && forall z: nat :: z < |turns| && turns[z].traj != traj && NotLeft(s.chains, z) ==> NotLeft(s'.chains, z)
  {
    var idxes := SortByPrompt(turns, TurnsOf(turns, traj));
    TrialOrderOf(turns, traj);
    forall k | 0 <= k < |idxes| ensures NotLeft(s.chains, idxes[k]) {
      assert idxes[k] in idxes;
    }
    LinkTrajOk(turns, len, traj, idxes, |idxes|, s);
  }

  lemma {:induction false} LinkTrajsOk(turns: seq<Turn>, len: nat, trajs: seq<int>, n: nat)
    requires TurnsOk(turns, len) && n <= |trajs| && Distinct(trajs)
    ensures ChainsOk(turns, len, LinkTrajs(turns, len, trajs, n).chains) && PassedOk(LinkTrajs(turns, len, trajs, n))
    ensures forall m, z: nat :: n <= m < |trajs| && z < |turns| && turns[z].traj == trajs[m] ==>
      NotLeft(LinkTrajs(turns, len, trajs, n).chains, z)
  {
    if n > 0 {
      LinkTrajsOk(turns, len, trajs, n - 1);
      forall m | n <= m < |trajs| ensures trajs[m] != trajs[n - 1] {
        assert Differ(trajs, n - 1, m);
      }
      LinkOneTraj(turns, len, trajs[n - 1], LinkTrajs(turns, len, trajs, n - 1));
    }
  }

  /** Chains are vertex-disjoint paths of compatible turns, each inside one trajectory. */
  lemma {:induction false} ChainsOfOk(turns: seq<Turn>, len: nat)
    requires TurnsOk(turns, len)
    ensures ChainsOk(turns, len, ChainsOf(turns, len))
  {
    KeysDistinct(TrajNumbers(turns), Range(|turns|));
    LinkTrajsOk(turns, len, Trajs(turns), |Trajs(turns)|);
  }
}
