/**
 `pack_traj_batch`: links the turns of a batch, folds every chain into its last turn, drops the
 folded turns and rescales. Packing fails exactly on chains of unequal rewards or empty responses;
 otherwise it keeps the training objective exactly if no two linked responses overlap.
*/
module TurnBatches {
  import opened Sequences
  import opened Outcomes
  import opened Grouping
  import opened TurnChains
  import opened TurnPacking

  // ---------------------------------------------------------------- linking

  /** The inner loop: skips turns that continue another one, and turns that do not fit. */
  method FindRight(turns: seq<Turn>, ghost len: nat, idxes: seq<nat>, left: nat, start: nat,
        passed: set<nat>) returns (r: nat)
    requires start <= |idxes| && left < |turns| && (forall a :: 0 <= a < |idxes| ==> idxes[a] < |turns|)
    requires TurnsOk(turns, len)
    ensures start <= r <= |idxes| && r == FirstRight(turns, len, idxes, left, start, passed)
  {
    r := start;
    while r < |idxes|
      invariant start <= r <= |idxes|
      invariant FirstRight(turns, len, idxes, left, start, passed) == FirstRight(turns, len, idxes, left, r, passed)
    {
      if idxes[r] !in passed && Compatible(turns[left], turns[idxes[r]]) {
        return;
      }
      r := r + 1;
    }
  }

  /** Tries every turn of one trajectory as a left end. */
  method LinkTurns(turns: seq<Turn>, ghost len: nat, idxes: seq<nat>, s: Links) returns (r: Links)
    requires TurnsOk(turns, len) && forall a :: 0 <= a < |idxes| ==> idxes[a] < |turns|
    ensures r == LinkTraj(turns, len, idxes, |idxes|, s)
  {
    r := s;
    for i := 0 to |idxes|
      invariant r == LinkTraj(turns, len, idxes, i, s)
    {
      var right := FindRight(turns, len, idxes, idxes[i], i + 1, r.passed);
      if right < |idxes| {
        r := Links(Extend(r.chains, idxes[i], idxes[right]), r.passed + {idxes[right]});
      }
    }
  }

  /** The whole pack map. */
  method BuildChains(turns: seq<Turn>, ghost len: nat) returns (chains: seq<seq<nat>>)
    requires TurnsOk(turns, len)
    ensures chains == ChainsOf(turns, len)
  {
    var trajs, byTraj := GroupBy(TrajNumbers(turns), Range(|turns|));
    var s := Links([], {});
    for i := 0 to |trajs|
      invariant s == LinkTrajs(turns, len, trajs, i)
    {
      var t := trajs[i];
      assert t in trajs;
      s := LinkTurns(turns, len, SortByPrompt(turns, byTraj[t]), s);
    }
    chains := s.chains;
  }

  // ---------------------------------------------------------------- folding one chain

  predicate SameRewards(rows: seq<Turn>) {
    forall j :: 0 <= j < |rows| ==> rows[j].reward == rows[0].reward
  }

  predicate AllRespond(rows: seq<Turn>) {
    forall j :: 0 <= j < |rows| ==> rows[j].resp > 0
  }

  /** The rows of a chain, in chain order. */
  ghost predicate RowsOk(rows: seq<Turn>, len: nat) {
    TurnsOk(rows, len) && ChainOk(rows, len, Range(|rows|))
  }

  /** Folding a chain: unequal rewards fail an assertion, an empty response divides by zero. */
  function Fold(rows: seq<Turn>, len: nat): Result<Turn>
    requires RowsOk(rows, len)
  {
    if !SameRewards(rows) then Err(AssertionError)
    else if !AllRespond(rows) then Err(ZeroDivisionError)
    else Ok(Merged(rows, len, Range(|rows|)))
  }

  method MergeChain(rows: seq<Turn>, len: nat) returns (r: Result<Turn>)
    requires RowsOk(rows, len)
    ensures r == Fold(rows, len)
  {
    for j := 0 to |rows|
      invariant forall i :: 0 <= i < j ==> rows[i].reward == rows[0].reward
    {
      if rows[j].reward != rows[0].reward {
        return Err(AssertionError);
      }
    }
    for j := 0 to |rows|
      invariant forall i :: 0 <= i < j ==> rows[i].resp > 0
    {
      assert TurnOk(rows[j], len);
      CountIsResponse(rows[j], len);
      if Count(rows[j]) == 0 {
        return Err(ZeroDivisionError);
      }
    }
    r := Ok(Merged(rows, len, Range(|rows|)));
  }

  // ---------------------------------------------------------------- folding all chains

  function RowsOf(turns: seq<Turn>, c: seq<nat>): (r: seq<Turn>)
    requires forall j :: 0 <= j < |c| ==> c[j] < |turns|
    ensures |r| == |c| && forall j :: 0 <= j < |c| ==> r[j] == turns[c[j]]
  {
    seq(|c|, j requires 0 <= j < |c| => turns[c[j]])
  }

  lemma {:induction false} ChainRowsOk(turns: seq<Turn>, len: nat, c: seq<nat>)
    requires TurnsOk(turns, len) && ChainOk(turns, len, c)
    ensures RowsOk(RowsOf(turns, c), len)
  {
    var rows := RowsOf(turns, c);
    assert forall j :: 0 <= j < |c| ==> TurnOk(turns[c[j]], len);
    assert TurnsOk(rows, len);
    forall j, k | 0 <= j && k == j + 1 && k < |c| ensures LinkOk(rows, len, Range(|rows|)[j], Range(|rows|)[k]) {
      assert LinkOk(turns, len, c[j], c[k]);
    }
  }

  function FoldOf(turns: seq<Turn>, len: nat, c: seq<nat>): Result<Turn>
    requires TurnsOk(turns, len) && ChainOk(turns, len, c)
  {
    ChainRowsOk(turns, len, c);
    Fold(RowsOf(turns, c), len)
  }

  /** The error of the first chain that cannot be folded. */
  function FirstError(turns: seq<Turn>, len: nat, chains: seq<seq<nat>>, n: nat): Option<Error>
    requires TurnsOk(turns, len) && ChainsOk(turns, len, chains) && n <= |chains|
  {
    if n == 0 then None
    else
      var e := FirstError(turns, len, chains, n - 1);
      if e.Some? then e
      else match FoldOf(turns, len, chains[n - 1])
           case Ok(_) => None
           case Err(error) => Some(error)
  }

  lemma {:induction false} NoErrorAt(turns: seq<Turn>, len: nat, chains: seq<seq<nat>>, n: nat, a: nat)
    requires TurnsOk(turns, len) && ChainsOk(turns, len, chains) && a < n <= |chains|
    requires FirstError(turns, len, chains, n).None?
    ensures FoldOf(turns, len, chains[a]).Ok?
  {
    if a < n - 1 {
      NoErrorAt(turns, len, chains, n - 1, a);
    }
  }

  lemma {:induction false} InTwoChains(chains: seq<seq<nat>>, a: nat, b: nat, x: nat)
    requires a < |chains| && b < |chains| && a != b && x in chains[a] && x in chains[b]
    ensures Occurrences(Flatten<nat>(chains), x) >= 2
  {
    FlattenRemoveAt(chains, a);
    var rest := RemoveAt(chains, a);
    var q := if b < a then b else b - 1;
    assert rest[q] == chains[b];
    FlattenMember<nat>(rest, q, x);
    assert x in multiset(chains[a]) && x in multiset(Flatten<nat>(rest));
  }

  lemma {:induction false} ChainsApart(chains: seq<seq<nat>>, a: nat, b: nat, x: nat)
    requires Once(Flatten<nat>(chains)) && a < |chains| && b < |chains| && x in chains[a] && x in chains[b]
    ensures a == b
  {
    if a != b {
      InTwoChains(chains, a, b, x);
    }
  }

  /** Row i after folding the first n chains. */
  function FoldedAt(turns: seq<Turn>, len: nat, chains: seq<seq<nat>>, n: nat, i: nat): Turn
    requires TurnsOk(turns, len) && ChainsOk(turns, len, chains) && n <= |chains| && i < |turns|
    requires FirstError(turns, len, chains, n).None?
  {
    var a := ChainEnding(chains, i);
    if a < n then
      NoErrorAt(turns, len, chains, n, a);
      FoldOf(turns, len, chains[a]).value
    else turns[i]
  }

  function Folded(turns: seq<Turn>, len: nat, chains: seq<seq<nat>>, n: nat): (r: seq<Turn>)
    requires TurnsOk(turns, len) && ChainsOk(turns, len, chains) && n <= |chains|
    requires FirstError(turns, len, chains, n).None?
    ensures |r| == |turns| && forall i :: 0 <= i < |turns| ==> r[i] == FoldedAt(turns, len, chains, n, i)
  {
    seq(|turns|, i requires 0 <= i < |turns| => FoldedAt(turns, len, chains, n, i))
  }

  lemma {:induction false} LastEnds(turns: seq<Turn>, len: nat, chains: seq<seq<nat>>, a: nat)
    requires TurnsOk(turns, len) && ChainsOk(turns, len, chains) && a < |chains|
    ensures chains[a] != [] && ChainEnding(chains, chains[a][|chains[a]| - 1]) == a
  {
    assert ChainOk(turns, len, chains[a]);
    var last := chains[a][|chains[a]| - 1];
    var b := ChainEnding(chains, last);
    assert last in chains[a] && b <= a;
    assert last in chains[b];
    ChainsApart(chains, a, b, last);
  }

  /** The members of a chain that is still to be folded are untouched. */
  lemma {:induction false} StillToFold(turns: seq<Turn>, len: nat, chains: seq<seq<nat>>, n: nat)
    requires TurnsOk(turns, len) && ChainsOk(turns, len, chains) && n < |chains|
    requires FirstError(turns, len, chains, n).None?
    ensures ChainOk(turns, len, chains[n])
    ensures RowsOf(Folded(turns, len, chains, n), chains[n]) == RowsOf(turns, chains[n])
  {
    var c, split := chains[n], Folded(turns, len, chains, n);
    assert ChainOk(turns, len, c);
    forall j | 0 <= j < |c| ensures split[c[j]] == turns[c[j]] {
      var a := ChainEnding(chains, c[j]);
      if a < n {
        assert c[j] in chains[a] && c[j] in chains[n];
        ChainsApart(chains, a, n, c[j]);
      }
    }
  }

  lemma {:induction false} FoldNext(turns: seq<Turn>, len: nat, chains: seq<seq<nat>>, n: nat)
    requires TurnsOk(turns, len) && ChainsOk(turns, len, chains) && n < |chains|
    requires FirstError(turns, len, chains, n + 1).None?
    ensures chains[n] != [] && chains[n][|chains[n]| - 1] < |turns| && FirstError(turns, len, chains, n).None?
    ensures Folded(turns, len, chains, n + 1)
      == Folded(turns, len, chains, n)[chains[n][|chains[n]| - 1] := FoldOf(turns, len, chains[n]).value]
  {
    LastEnds(turns, len, chains, n);
    assert ChainOk(turns, len, chains[n]);
    var last := chains[n][|chains[n]| - 1];
    var before, after := Folded(turns, len, chains, n), Folded(turns, len, chains, n + 1);
    var m := FoldOf(turns, len, chains[n]).value;
    forall i: nat | i < |turns| ensures after[i] == if i == last then m else before[i] {
      FoldNextAt(turns, len, chains, n, i);
    }
    assert after == before[last := m];
  }

  lemma {:induction false} FoldNextLast(turns: seq<Turn>, len: nat, chains: seq<seq<nat>>, n: nat)
    requires TurnsOk(turns, len) && ChainsOk(turns, len, chains) && n < |chains|
    requires FirstError(turns, len, chains, n + 1).None?
    ensures chains[n] != [] && chains[n][|chains[n]| - 1] < |turns|
    ensures FoldedAt(turns, len, chains, n + 1, chains[n][|chains[n]| - 1]) == FoldOf(turns, len, chains[n]).value
  {
    LastEnds(turns, len, chains, n);
    NoErrorAt(turns, len, chains, n + 1, n);
    assert ChainOk(turns, len, chains[n]);
  }

  lemma {:induction false} NotEnding(chains: seq<seq<nat>>, n: nat, i: nat)
    requires n < |chains| && chains[n] != [] && i != chains[n][|chains[n]| - 1]
    ensures ChainEnding(chains, i) != n
  {
  }

  /** Folding further chains leaves a row alone unless one of them ends with it. */
  lemma {:induction false} FoldedAlike(turns: seq<Turn>, len: nat, chains: seq<seq<nat>>, n: nat, m: nat, i: nat,
        a: nat)
    requires TurnsOk(turns, len) && ChainsOk(turns, len, chains) && n <= m <= |chains| && i < |turns|
    requires FirstError(turns, len, chains, n).None? && FirstError(turns, len, chains, m).None?
    requires a == ChainEnding(chains, i) && (a < n <==> a < m)
    ensures FoldedAt(turns, len, chains, m, i) == FoldedAt(turns, len, chains, n, i)
  {
  }

  lemma {:induction false} FoldNextAt(turns: seq<Turn>, len: nat, chains: seq<seq<nat>>, n: nat, i: nat)
    requires TurnsOk(turns, len) && ChainsOk(turns, len, chains) && n < |chains| && i < |turns|
    requires FirstError(turns, len, chains, n + 1).None? && FirstError(turns, len, chains, n).None?
    ensures chains[n] != [] && FoldedAt(turns, len, chains, n + 1, i)
      == if i == chains[n][|chains[n]| - 1] then FoldOf(turns, len, chains[n]).value
         else FoldedAt(turns, len, chains, n, i)
  {
    FoldNextLast(turns, len, chains, n);
    if i != chains[n][|chains[n]| - 1] {
      NotEnding(chains, n, i);
      FoldedAlike(turns, len, chains, n, n + 1, i, ChainEnding(chains, i));
    }
  }

  ghost predicate FoldedTo(turns: seq<Turn>, len: nat, chains: seq<seq<nat>>, n: nat, r: Result<seq<Turn>>)
    requires TurnsOk(turns, len) && ChainsOk(turns, len, chains) && n <= |chains|
  {
    match FirstError(turns, len, chains, n)
    case None => r == Ok(Folded(turns, len, chains, n))
    case Some(e) => r == Err(e)
  }

  method MergeNext(turns: seq<Turn>, len: nat, chains: seq<seq<nat>>, n: nat,
        split: seq<Turn>) returns (r: Result<seq<Turn>>)
    requires TurnsOk(turns, len) && ChainsOk(turns, len, chains) && n < |chains|
    requires FirstError(turns, len, chains, n).None? && split == Folded(turns, len, chains, n)
    ensures FoldedTo(turns, len, chains, n + 1, r)
  {
    StillToFold(turns, len, chains, n);
    ChainRowsOk(turns, len, chains[n]);
    var m := MergeChain(RowsOf(split, chains[n]), len);
    if m.Err? {
      return Err(m.error);
    }
    FoldNext(turns, len, chains, n);
    r := Ok(split[chains[n][|chains[n]| - 1] := m.value]);
  }

  /** Folds the chains one after the other, each into the row of its last turn. */
  method MergeChains(turns: seq<Turn>, len: nat, chains: seq<seq<nat>>) returns (r: Result<seq<Turn>>)
    requires TurnsOk(turns, len) && ChainsOk(turns, len, chains)
    ensures FoldedTo(turns, len, chains, |chains|, r)
  {
    r := Ok(turns);
    assert Folded(turns, len, chains, 0) == turns;
    for n := 0 to |chains|
      invariant r.Ok? && FoldedTo(turns, len, chains, n, r)
    {
      r := MergeNext(turns, len, chains, n, r.value);
      if r.Err? {
        FirstErrorStays(turns, len, chains, n + 1, |chains|);
        return;
      }
    }
  }

  lemma {:induction false} FirstErrorStays(turns: seq<Turn>, len: nat, chains: seq<seq<nat>>, n: nat, m: nat)
    requires TurnsOk(turns, len) && ChainsOk(turns, len, chains) && n <= m <= |chains|
    requires FirstError(turns, len, chains, n).Some?
    ensures FirstError(turns, len, chains, m) == FirstError(turns, len, chains, n)
  {
    if n < m {
      FirstErrorStays(turns, len, chains, n, m - 1);
    }
  }

  // ---------------------------------------------------------------- the packed batch

  /** `all_prefixes`: the turns that another one continues. */
  function Prefixes(chains: seq<seq<nat>>): (r: set<nat>)
    ensures forall x: nat :: x in r <==> !NotLeft(chains, x)
  {
    set a, j | 0 <= a < |chains| && 0 <= j < |chains[a]| - 1 :: chains[a][j]
  }

  function Survivors(rows: seq<Turn>, gone: set<nat>, n: nat): (r: seq<Turn>)
    requires n <= |rows|
    ensures |r| <= n
  {
    if n == 0 then []
    else if n - 1 in gone then Survivors(rows, gone, n - 1)
    else Survivors(rows, gone, n - 1) + [rows[n - 1]]
  }

  function Scaled(t: Turn, factor: real): (r: Turn)
    ensures |r.scales| == |t.scales| && forall p :: 0 <= p < |t.scales| ==> r.scales[p] == t.scales[p] * factor
  {
    t.(scales := seq(|t.scales|, p requires 0 <= p < |t.scales| => t.scales[p] * factor))
  }

  function ScaledAll(rows: seq<Turn>, factor: real): (r: seq<Turn>)
    ensures |r| == |rows| && forall i :: 0 <= i < |rows| ==> r[i] == Scaled(rows[i], factor)
  {
    seq(|rows|, i requires 0 <= i < |rows| => Scaled(rows[i], factor))
  }

  /** The group-level scale of the rows that are left of a batch of `all` turns. */
  function RescaleGroup(kept: seq<Turn>, all: nat, groupLevel: bool): seq<Turn>
    requires all > 0
  {
    if groupLevel then ScaledAll(kept, |kept| as real / all as real) else kept
  }

  /** Why a batch cannot be packed: it has no turn, or a chain cannot be folded. */
  ghost function PackError(turns: seq<Turn>, len: nat): Option<Error>
    requires TurnsOk(turns, len)
  {
    ChainsOfOk(turns, len);
    if turns == [] then Some(RuntimeError) else FirstError(turns, len, ChainsOf(turns, len), |ChainsOf(turns, len)|)
  }

  ghost predicate Packs(turns: seq<Turn>, len: nat)
    requires TurnsOk(turns, len)
  {
    PackError(turns, len).None?
  }

  /** The folded rows that are left. */
  ghost function Kept(turns: seq<Turn>, len: nat): seq<Turn>
    requires TurnsOk(turns, len) && Packs(turns, len)
  {
    ChainsOfOk(turns, len);
    var chains := ChainsOf(turns, len);
    Survivors(Folded(turns, len, chains, |chains|), Prefixes(chains), |turns|)
  }

  ghost function Packed(turns: seq<Turn>, len: nat, groupLevel: bool): seq<Turn>
    requires TurnsOk(turns, len) && Packs(turns, len)
  {
    RescaleGroup(Kept(turns, len), |turns|, groupLevel)
  }

  /** `pack_traj_batch`; cutting an empty batch into no rows fails. */
  method PackTurns(turns: seq<Turn>, len: nat, groupLevel: bool) returns (r: Result<seq<Turn>>)
    requires TurnsOk(turns, len)
    ensures match PackError(turns, len)
            case None => r == Ok(Packed(turns, len, groupLevel))
            case Some(e) => r == Err(e)
  {
    ChainsOfOk(turns, len);
    var chains := BuildChains(turns, len);
    if turns == [] {
      return Err(RuntimeError);
    }
    var split := MergeChains(turns, len, chains);
    if split.Err? {
      return Err(split.error);
    }
    var kept := KeepSurvivors(split.value, Prefixes(chains));
    r := Ok(RescaleGroup(kept, |turns|, groupLevel));
  }

  method KeepSurvivors(rows: seq<Turn>, gone: set<nat>) returns (kept: seq<Turn>)
    ensures kept == Survivors(rows, gone, |rows|)
  {
    kept := [];
    for i := 0 to |rows|
      invariant kept == Survivors(rows, gone, i)
    {
      if i !in gone {
        kept := kept + [rows[i]];
      }
    }
  }

  // ---------------------------------------------------------------- sums over the batch

  function SumUpTo(f: nat -> real, n: nat): real {
    if n == 0 then 0.0 else SumUpTo(f, n - 1) + f(n - 1)
  }

  lemma {:induction false} SumOverConcat(f: nat -> real, a: seq<nat>, b: seq<nat>)
    ensures SumOver(f, a + b) == SumOver(f, a) + SumOver(f, b)
  {
    if a == [] {
      assert a + b == b;
    } else {
      assert (a + b)[1..] == a[1..] + b;
      SumOverConcat(f, a[1..], b);
    }
  }

  lemma {:induction false} SumOverRemove(f: nat -> real, c: seq<nat>, i: nat)
    requires i < |c|
    ensures SumOver(f, c) == SumOver(f, RemoveAt(c, i)) + f(c[i])
  {
    SumOverConcat(f, c[..i], c[i..]);
    SumOverConcat(f, c[..i], c[i + 1..]);
    assert c == c[..i] + c[i..] && c[i..][1..] == c[i + 1..];
  }

  ghost predicate AgreeOff(f: nat -> real, g: nat -> real, c: seq<nat>, n: nat) {
    forall i: nat :: i < n && i !in c ==> f(i) == g(i)
  }

  ghost predicate Below(c: seq<nat>, n: nat) {
    forall i :: 0 <= i < |c| ==> c[i] < n
  }

  lemma {:induction false} WithoutLast(f: nat -> real, g: nat -> real, c: seq<nat>, n: nat) returns (rest: seq<nat>)
    requires n > 0 && Once(c) && Below(c, n) && AgreeOff(f, g, c, n) && n - 1 in c
    ensures Once(rest) && Below(rest, n - 1) && AgreeOff(f, g, rest, n - 1)
    ensures SumOver(f, c) == SumOver(f, rest) + f(n - 1) && SumOver(g, c) == SumOver(g, rest) + g(n - 1)
  {
    var i :| 0 <= i < |c| && c[i] == n - 1;
    rest := RemoveAt(c, i);
    RemoveOnce(c, i);
    SumOverRemove(f, c, i);
    SumOverRemove(g, c, i);
    forall k | 0 <= k < |rest| ensures rest[k] < n - 1 {
      assert rest[k] in rest;
    }
  }

  lemma {:induction false} LastUnlisted(f: nat -> real, g: nat -> real, c: seq<nat>, n: nat)
    requires n > 0 && Below(c, n) && AgreeOff(f, g, c, n) && n - 1 !in c
    ensures Below(c, n - 1) && AgreeOff(f, g, c, n - 1) && f(n - 1) == g(n - 1)
  {
  }

  /** Two sums that differ only on the listed terms differ by what those terms differ. */
  lemma {:induction false} SumChange(f: nat -> real, g: nat -> real, c: seq<nat>, n: nat)
    requires Once(c) && Below(c, n) && AgreeOff(f, g, c, n)
    ensures SumUpTo(g, n) - SumUpTo(f, n) == SumOver(g, c) - SumOver(f, c)
    decreases n
  {
    if n == 0 {
      assert c == [];
    } else if n - 1 in c {
      var rest := WithoutLast(f, g, c, n);
      SumChange(f, g, rest, n - 1);
    } else {
      LastUnlisted(f, g, c, n);
      SumChange(f, g, c, n - 1);
    }
  }

  lemma {:induction false} SumFlatten(f: nat -> real, chains: seq<seq<nat>>)
    ensures SumOver(f, Flatten<nat>(chains)) == SumChains(f, chains)
  {
    if chains != [] {
      SumFlatten(f, chains[1..]);
      SumOverConcat(f, chains[0], Flatten<nat>(chains[1..]));
    }
  }

  function SumChains(f: nat -> real, chains: seq<seq<nat>>): real {
    if chains == [] then 0.0 else SumOver(f, chains[0]) + SumChains(f, chains[1..])
  }

  /** Chain by chain, one total is at least the other, and equal exactly if all chains agree. */
  lemma {:induction false} SumChainsCompare(f: nat -> real, g: nat -> real, chains: seq<seq<nat>>)
    requires forall a :: 0 <= a < |chains| ==> SumOver(f, chains[a]) <= SumOver(g, chains[a])
    ensures SumChains(f, chains) <= SumChains(g, chains)
    ensures SumChains(f, chains) == SumChains(g, chains)
      <==> forall a :: 0 <= a < |chains| ==> SumOver(f, chains[a]) == SumOver(g, chains[a])
  {
    if chains != [] {
      var rest := chains[1..];
      assert forall a :: 0 <= a < |rest| ==> rest[a] == chains[a + 1];
      SumChainsCompare(f, g, rest);
      if SumChains(f, chains) == SumChains(g, chains) {
        forall a | 0 <= a < |chains| ensures SumOver(f, chains[a]) == SumOver(g, chains[a]) {
          assert a > 0 ==> chains[a] == rest[a - 1];
        }
      }
    }
  }

  // ---------------------------------------------------------------- the objective of the batch

  /** The value of every row that is left, and nothing for the others. */
  function KeptValue(rows: seq<Turn>, gone: set<nat>, value: TokenValue): nat -> real {
    (i: nat) => if i < |rows| && i !in gone then Value(rows[i], value) else 0.0
  }

  lemma {:induction false} SumByPush(f: Turn -> real, rows: seq<Turn>, last: Turn)
    ensures SumBy(f, rows + [last]) == SumBy(f, rows) + f(last)
  {
    assert (rows + [last])[..|rows|] == rows;
  }

  lemma {:induction false} SumSurvivors(rows: seq<Turn>, gone: set<nat>, n: nat, f: Turn -> real, h: nat -> real)
    requires n <= |rows| && forall i :: 0 <= i < |rows| ==> h(i) == if i in gone then 0.0 else f(rows[i])
    ensures SumBy(f, Survivors(rows, gone, n)) == SumUpTo(h, n)
  {
    if n > 0 {
      SumSurvivors(rows, gone, n - 1, f, h);
      if n - 1 !in gone {
        SumByPush(f, Survivors(rows, gone, n - 1), rows[n - 1]);
      }
    }
  }

  lemma {:induction false} SumRows(rows: seq<Turn>, n: nat, f: Turn -> real, h: nat -> real)
    requires n <= |rows| && forall i :: 0 <= i < |rows| ==> h(i) == f(rows[i])
    ensures SumBy(f, rows[..n]) == SumUpTo(h, n)
  {
    if n > 0 {
      SumRows(rows, n - 1, f, h);
      assert rows[..n][..n - 1] == rows[..n - 1];
    }
  }

  lemma {:induction false} RowsValue(turns: seq<Turn>, c: seq<nat>, value: TokenValue, n: nat)
    requires n <= |c| && forall j :: 0 <= j < |c| ==> c[j] < |turns|
    ensures SumOver(ValueOf(RowsOf(turns, c), value), Range(n)) == SumOver(ValueOf(turns, value), c[..n])
  {
    if n > 0 {
      RowsValue(turns, c, value, n - 1);
      assert Range(n) == Range(n - 1) + [n - 1] && c[..n] == c[..n - 1] + [c[n - 1]];
      SumOverConcat(ValueOf(RowsOf(turns, c), value), Range(n - 1), [n - 1]);
      SumOverConcat(ValueOf(turns, value), c[..n - 1], [c[n - 1]]);
    }
  }

  lemma {:induction false} KeptInChain(rows: seq<Turn>, chains: seq<seq<nat>>, a: nat, value: TokenValue)
    requires a < |chains| && chains[a] != []
    ensures var c := chains[a];
      SumOver(KeptValue(rows, Prefixes(chains), value), c) == KeptValue(rows, Prefixes(chains), value)(c[|c| - 1])
  {
    var c, f := chains[a], KeptValue(rows, Prefixes(chains), value);
    forall j | 0 <= j < |c| && j != |c| - 1 ensures f(c[j]) == 0.0 {
      assert !OnlyLast(chains[a], c[j]);
      assert !NotLeft(chains, c[j]);
    }
    SumOverSingle(f, c, |c| - 1);
  }

  /** After folding, a chain's value is that of its folded last turn. */
  lemma {:induction false} ChainKeptValue(turns: seq<Turn>, len: nat, chains: seq<seq<nat>>, value: TokenValue, a: nat)
    requires TurnsOk(turns, len) && ChainsOk(turns, len, chains) && a < |chains|
    requires FirstError(turns, len, chains, |chains|).None?
    ensures FoldOf(turns, len, chains[a]).Ok?
    ensures SumOver(KeptValue(Folded(turns, len, chains, |chains|), Prefixes(chains), value), chains[a])
      == Value(FoldOf(turns, len, chains[a]).value, value)
  {
    NoErrorAt(turns, len, chains, |chains|, a);
    LastEnds(turns, len, chains, a);
    assert ChainOk(turns, len, chains[a]);
    LastNotPrefix(turns, len, chains, a);
    KeptInChain(Folded(turns, len, chains, |chains|), chains, a, value);
  }

  lemma {:induction false} ChainOnce(chains: seq<seq<nat>>, a: nat)
    requires Once(Flatten<nat>(chains)) && a < |chains|
    ensures Once(chains[a])
  {
    FlattenRemoveAt(chains, a);
    forall x: nat ensures Occurrences(chains[a], x) <= 1 {
      assert Occurrences(Flatten<nat>(chains), x) <= 1;
    }
  }

  lemma {:induction false} LastNotPrefix(turns: seq<Turn>, len: nat, chains: seq<seq<nat>>, a: nat)
    requires TurnsOk(turns, len) && ChainsOk(turns, len, chains) && a < |chains|
    ensures chains[a] != [] && NotLeft(chains, chains[a][|chains[a]| - 1])
  {
    assert ChainOk(turns, len, chains[a]);
    var last := chains[a][|chains[a]| - 1];
    forall b, j | 0 <= b < |chains| && 0 <= j < |chains[b]| - 1 ensures chains[b][j] != last {
      if chains[b][j] == last {
        ChainsApart(chains, a, b, last);
        ChainOnce(chains, a);
        OnceApart(chains[a], j, |chains[a]| - 1);
      }
    }
  }

  // ---------------------------------------------------------------- the main theorem

  /** No two linked responses overlap. */
  ghost predicate AllApart(turns: seq<Turn>, len: nat, chains: seq<seq<nat>>)
    requires TurnsOk(turns, len) && ChainsOk(turns, len, chains)
  {
    forall a :: 0 <= a < |chains| ==> ChainOk(turns, len, chains[a]) && ChainApart(turns, chains[a])
  }

  lemma {:induction false} RowsApart(turns: seq<Turn>, len: nat, c: seq<nat>)
    requires TurnsOk(turns, len) && ChainOk(turns, len, c)
    ensures ChainApart(RowsOf(turns, c), Range(|c|)) <==> ChainApart(turns, c)
  {
    var rows := RowsOf(turns, c);
    if ChainApart(turns, c) {
      forall j, k | 0 <= j && k == j + 1 && k < |c| ensures Apart(rows[Range(|c|)[j]], rows[Range(|c|)[k]]) {
        assert Apart(turns[c[j]], turns[c[k]]);
      }
    }
    if ChainApart(rows, Range(|c|)) {
      forall j, k | 0 <= j && k == j + 1 && k < |c| ensures Apart(turns[c[j]], turns[c[k]]) {
        assert Apart(rows[Range(|c|)[j]], rows[Range(|c|)[k]]);
      }
    }
  }

  /** What folding one chain does to its part of the objective. */
  lemma {:induction false} FoldValue(turns: seq<Turn>, len: nat, c: seq<nat>, value: TokenValue)
    requires TurnsOk(turns, len) && ChainOk(turns, len, c) && FoldOf(turns, len, c).Ok?
    requires ChainApart(turns, c) || value == One()
    ensures var v, v' := SumOver(ValueOf(turns, value), c), Value(FoldOf(turns, len, c).value, value);
      && (ChainApart(turns, c) ==> v' == v)
      && (!ChainApart(turns, c) && v > 0.0 ==> v' > v)
  {
    ChainRowsOk(turns, len, c);
    RowsApart(turns, len, c);
    RowsValue(turns, c, value, |c|);
    assert c[..|c|] == c;
    MergedValue(RowsOf(turns, c), len, Range(|c|), value, FoldOf(turns, len, c).value);
  }

  /** Every response token has a positive loss scale. */
  ghost predicate PositiveScales(turns: seq<Turn>, len: nat)
    requires TurnsOk(turns, len)
  {
    forall i, p :: 0 <= i < |turns| && 0 <= p < len && turns[i].mask[p] ==> turns[i].scales[p] > 0.0
  }

  lemma {:induction false} WeightPositive(t: Turn, len: nat, n: nat)
    requires TurnOk(t, len) && n <= len && forall p :: 0 <= p < len && t.mask[p] ==> t.scales[p] > 0.0
    ensures WeightTo(t, One(), n) >= 0.0 && (t.prompt < n && t.resp > 0 ==> WeightTo(t, One(), n) > 0.0)
  {
    if n > 0 {
      WeightPositive(t, len, n - 1);
    }
  }

  lemma {:induction false} ValuePositive(turns: seq<Turn>, len: nat, i: nat)
    requires TurnsOk(turns, len) && PositiveScales(turns, len) && i < |turns| && turns[i].resp > 0
    ensures ValueOf(turns, One())(i) > 0.0
  {
    var t := turns[i];
    CountIsResponse(t, len);
    WeightPositive(t, len, len);
    PositiveQuotient(WeightTo(t, One(), len), Count(t) as real);
  }

  lemma {:induction false} PositiveQuotient(a: real, b: real)
    requires a > 0.0 && b > 0.0
    ensures a / b > 0.0
  {
  }

  lemma {:induction false} SumOverPositive(f: nat -> real, c: seq<nat>)
    requires c != [] && forall j :: 0 <= j < |c| ==> f(c[j]) > 0.0
    ensures SumOver(f, c) > 0.0
  {
    if |c| > 1 {
      SumOverPositive(f, c[1..]);
    }
  }

  /** A chain's part of the objective never shrinks, and is kept exactly if the chain is disjoint. */
  lemma {:induction false} ChainGain(turns: seq<Turn>, len: nat, chains: seq<seq<nat>>, value: TokenValue, a: nat)
    requires TurnsOk(turns, len) && ChainsOk(turns, len, chains) && a < |chains|
    requires FirstError(turns, len, chains, |chains|).None?
    requires AllApart(turns, len, chains) || (value == One() && PositiveScales(turns, len))
    ensures ChainOk(turns, len, chains[a])
    ensures var v, v' := SumOver(ValueOf(turns, value), chains[a]),
                         SumOver(KeptValue(Folded(turns, len, chains, |chains|), Prefixes(chains), value), chains[a]);
      v <= v' && (v == v' <==> ChainApart(turns, chains[a]))
  {
    var c := chains[a];
    assert ChainOk(turns, len, c);
    ChainKeptValue(turns, len, chains, value, a);
    FoldValue(turns, len, c, value);
    if !AllApart(turns, len, chains) {
      ChainRowsOk(turns, len, c);
      var rows := RowsOf(turns, c);
      forall j | 0 <= j < |c| ensures ValueOf(turns, One())(c[j]) > 0.0 {
        assert rows[j].resp > 0;
        ValuePositive(turns, len, c[j]);
      }
      SumOverPositive(ValueOf(turns, One()), c);
    }
  }

  lemma {:induction false} OutsideChains(turns: seq<Turn>, len: nat, chains: seq<seq<nat>>, i: nat)
    requires TurnsOk(turns, len) && ChainsOk(turns, len, chains) && i < |turns| && i !in Flatten<nat>(chains)
    requires FirstError(turns, len, chains, |chains|).None?
    ensures Folded(turns, len, chains, |chains|)[i] == turns[i] && i !in Prefixes(chains)
  {
    var a := ChainEnding(chains, i);
    if a < |chains| {
      FlattenMember<nat>(chains, a, i);
    }
    if !NotLeft(chains, i) {
      var b :| 0 <= b < |chains| && !OnlyLast(chains[b], i);
      var j :| 0 <= j < |chains[b]| - 1 && chains[b][j] == i;
      FlattenMember<nat>(chains, b, i);
    }
  }

  /** The summed objective changes by what the chains' parts change. */
  lemma {:induction false} TotalChange(turns: seq<Turn>, len: nat, chains: seq<seq<nat>>, f: nat -> real,
        g: nat -> real)
    requires TurnsOk(turns, len) && ChainsOk(turns, len, chains)
    requires forall i: nat :: i < |turns| && i !in Flatten<nat>(chains) ==> f(i) == g(i)
    ensures SumUpTo(g, |turns|) - SumUpTo(f, |turns|) == SumChains(g, chains) - SumChains(f, chains)
  {
    ChainMembers(turns, len, chains);
    SumChange(f, g, Flatten<nat>(chains), |turns|);
    SumFlatten(f, chains);
    SumFlatten(g, chains);
  }

  lemma {:induction false} TotalsCompare(turns: seq<Turn>, len: nat, value: TokenValue, chains: seq<seq<nat>>,
        f: nat -> real, g: nat -> real)
    requires TurnsOk(turns, len) && ChainsOk(turns, len, chains) && FirstError(turns, len, chains, |chains|).None?
    requires AllApart(turns, len, chains) || (value == One() && PositiveScales(turns, len))
    requires f == ValueOf(turns, value) && g == KeptValue(Folded(turns, len, chains, |chains|), Prefixes(chains), value)
    ensures SumUpTo(f, |turns|) <= SumUpTo(g, |turns|)
    ensures SumUpTo(f, |turns|) == SumUpTo(g, |turns|) <==> AllApart(turns, len, chains)
  {
    forall i: nat | i < |turns| && i !in Flatten<nat>(chains) ensures f(i) == g(i) {
      OutsideChains(turns, len, chains, i);
    }
    TotalChange(turns, len, chains, f, g);
    forall a | 0 <= a < |chains|
      ensures SumOver(f, chains[a]) <= SumOver(g, chains[a])
      ensures ChainOk(turns, len, chains[a])
      ensures SumOver(f, chains[a]) == SumOver(g, chains[a]) <==> ChainApart(turns, chains[a])
    {
      ChainGain(turns, len, chains, value, a);
    }
    SumChainsCompare(f, g, chains);
  }

  /** The summed objective never shrinks, and is kept exactly if no two linked responses overlap. */
  lemma {:induction false} TotalKept(turns: seq<Turn>, len: nat, value: TokenValue, chains: seq<seq<nat>>)
    requires TurnsOk(turns, len) && Packs(turns, len) && chains == ChainsOf(turns, len) && ChainsOk(turns, len, chains)
    requires AllApart(turns, len, chains) || (value == One() && PositiveScales(turns, len))
    ensures SumValues(turns, value) <= SumValues(Kept(turns, len), value)
    ensures SumValues(turns, value) == SumValues(Kept(turns, len), value) <==> AllApart(turns, len, chains)
  {
    var split, gone := Folded(turns, len, chains, |chains|), Prefixes(chains);
    SumSurvivors(split, gone, |turns|, ByValue(value), KeptValue(split, gone, value));
    SumRows(turns, |turns|, ByValue(value), ValueOf(turns, value));
    assert turns[..|turns|] == turns;
    TotalsCompare(turns, len, value, chains, ValueOf(turns, value), KeptValue(split, gone, value));
  }

  lemma {:induction false} ChainMembers(turns: seq<Turn>, len: nat, chains: seq<seq<nat>>)
    requires TurnsOk(turns, len) && ChainsOk(turns, len, chains)
    ensures forall i :: 0 <= i < |Flatten<nat>(chains)| ==> Flatten<nat>(chains)[i] < |turns|
  {
    var flat := Flatten<nat>(chains);
    forall i | 0 <= i < |flat| ensures flat[i] < |turns| {
      var a := FlattenFind<nat>(chains, flat[i]);
      assert ChainOk(turns, len, chains[a]);
    }
  }

  // ---------------------------------------------------------------- the group-level scale

  lemma {:induction false} ScaledWeight(t: Turn, factor: real, value: TokenValue, n: nat)
    ensures WeightTo(Scaled(t, factor), value, n) == factor * WeightTo(t, value, n)
  {
    if n > 0 {
      ScaledWeight(t, factor, value, n - 1);
      ScaledTerm(t, factor, value, n - 1);
    }
  }

  lemma {:induction false} ScaledTerm(t: Turn, factor: real, value: TokenValue, p: nat)
    ensures TermAt(Scaled(t, factor), value, p) == factor * TermAt(t, value, p)
  {
    if p < |t.mask| && t.mask[p] && p < |t.ids| && p < |t.advs| && p < |t.logps| && p < |t.scales| {
      Regroup(t.scales[p], factor, value(t.ids[..p + 1], t.advs[p], t.logps[p]));
    }
  }

  lemma {:induction false} ScaledValue(t: Turn, factor: real, value: TokenValue)
    ensures Value(Scaled(t, factor), value) == factor * Value(t, value)
  {
    ScaledWeight(t, factor, value, |t.mask|);
    assert Scaled(t, factor).mask == t.mask && Count(Scaled(t, factor)) == Count(t);
    if Count(t) > 0 {
      QuotientOfProduct(factor, WeightTo(t, value, |t.mask|), Count(t) as real,
        WeightTo(Scaled(t, factor), value, |t.mask|));
    }
  }

  lemma {:induction false} QuotientOfProduct(factor: real, w: real, n: real, scaled: real)
    requires n > 0.0 && scaled == factor * w
    ensures scaled / n == factor * (w / n)
  {
    var q := w / n;
    assert w == q * n;
    assert scaled == (factor * q) * n;
  }

  lemma {:induction false} SumByScaled(f: Turn -> real, rows: seq<Turn>, all: seq<Turn>, a: real)
    requires |all| == |rows| && forall i :: 0 <= i < |rows| ==> f(all[i]) == a * f(rows[i])
    ensures SumBy(f, all) == a * SumBy(f, rows)
  {
    if rows != [] {
      SumByScaled(f, rows[..|rows| - 1], all[..|rows| - 1], a);
    }
  }

  lemma {:induction false} ScaledEach(rows: seq<Turn>, all: seq<Turn>, factor: real, value: TokenValue, f: Turn -> real)
    requires all == ScaledAll(rows, factor) && f == ByValue(value)
    ensures forall i :: 0 <= i < |rows| ==> f(all[i]) == factor * f(rows[i])
  {
    forall i | 0 <= i < |rows| ensures f(all[i]) == factor * f(rows[i]) {
      ScaledValue(rows[i], factor, value);
    }
  }

  lemma {:induction false} ScaledSum(rows: seq<Turn>, factor: real, value: TokenValue)
    ensures SumValues(ScaledAll(rows, factor), value) == factor * SumValues(rows, value)
  {
    ScaledSumOf(rows, ScaledAll(rows, factor), factor, value, ByValue(value));
  }

  lemma {:induction false} ScaledSumOf(rows: seq<Turn>, all: seq<Turn>, factor: real, value: TokenValue,
        f: Turn -> real)
    requires all == ScaledAll(rows, factor) && f == ByValue(value)
    ensures SumBy(f, all) == factor * SumBy(f, rows)
  {
    ScaledEach(rows, all, factor, value, f);
    SumByScaled(f, rows, all, factor);
  }

  lemma {:induction false} SomeSurvivor(rows: seq<Turn>, gone: set<nat>, n: nat, i: nat)
    requires i < n <= |rows| && i !in gone
    ensures Survivors(rows, gone, n) != []
  {
    if i < n - 1 {
      SomeSurvivor(rows, gone, n - 1, i);
    }
  }

  lemma {:induction false} SomeKept(turns: seq<Turn>, len: nat)
    requires TurnsOk(turns, len) && Packs(turns, len)
    ensures Kept(turns, len) != []
  {
    ChainsOfOk(turns, len);
    var chains := ChainsOf(turns, len);
    var i := SomeEnd(turns, len, chains);
    SomeSurvivor(Folded(turns, len, chains, |chains|), Prefixes(chains), |turns|, i);
  }

  /** A turn that no other one continues. */
  lemma {:induction false} SomeEnd(turns: seq<Turn>, len: nat, chains: seq<seq<nat>>) returns (i: nat)
    requires TurnsOk(turns, len) && ChainsOk(turns, len, chains) && turns != []
    ensures i < |turns| && i !in Prefixes(chains)
  {
    if chains == [] {
      i := 0;
    } else {
      LastNotPrefix(turns, len, chains, 0);
      assert ChainOk(turns, len, chains[0]);
      i := chains[0][|chains[0]| - 1];
    }
  }

  lemma {:induction false} MeanOfScaled(total: real, kept: real, all: real, factor: real, scaled: real)
    requires kept > 0.0 && all > 0.0 && factor == kept / all && scaled == factor * total
    ensures scaled / kept == total / all
  {
    assert kept == factor * all;
    var q := total / all;
    assert total == q * all;
    assert scaled == factor * (q * all) == q * (factor * all) == q * kept;
  }

  lemma {:induction false} ScaledMean(kept: seq<Turn>, all: nat, factor: real, value: TokenValue)
    requires kept != [] && all > 0 && factor == |kept| as real / all as real
    ensures ScaledAll(kept, factor) != []
    ensures MeanValue(ScaledAll(kept, factor), value) == SumValues(kept, value) / all as real
  {
    ScaledSum(kept, factor, value);
    MeanOfScaled(SumValues(kept, value), |kept| as real, all as real, factor,
      SumValues(ScaledAll(kept, factor), value));
  }

  /** With the group-level scale the packed mean is the kept total over the original number of turns. */
  lemma {:induction false} PackedMean(turns: seq<Turn>, len: nat, value: TokenValue)
    requires TurnsOk(turns, len) && Packs(turns, len)
    ensures Packed(turns, len, true) != []
    ensures MeanValue(Packed(turns, len, true), value) == SumValues(Kept(turns, len), value) / |turns| as real
  {
    SomeKept(turns, len);
    ScaledMean(Kept(turns, len), |turns|, |Kept(turns, len)| as real / |turns| as real, value);
  }

  /** Packing keeps the mean objective for every per-token value if no two linked responses overlap. */
  lemma {:induction false} PackKeepsMean(turns: seq<Turn>, len: nat, value: TokenValue)
    requires TurnsOk(turns, len) && Packs(turns, len)
    requires ChainsOk(turns, len, ChainsOf(turns, len)) && AllApart(turns, len, ChainsOf(turns, len))
    ensures Packed(turns, len, true) != [] && MeanValue(Packed(turns, len, true), value) == MeanValue(turns, value)
    ensures SumValues(Packed(turns, len, false), value) == SumValues(turns, value)
  {
    TotalKept(turns, len, value, ChainsOf(turns, len));
    PackedMean(turns, len, value);
  }

  /** A turn that can continue another one of its trajectory starts its response after that one's has ended. */
  predicate ContinuesApart(turns: seq<Turn>, len: nat, i: nat, j: nat)
    requires TurnsOk(turns, len) && i < |turns| && j < |turns|
  {
    var may := i != j && turns[i].traj == turns[j].traj && turns[i].prompt <= turns[j].prompt;
    may && Compatible(turns[i], turns[j]) ==> Apart(turns[i], turns[j])
  }

  ghost predicate EveryPairApart(turns: seq<Turn>, len: nat)
    requires TurnsOk(turns, len)
  {
    forall i: nat, j: nat {:trigger ContinuesApart(turns, len, i, j)} :: i < |turns| && j < |turns| ==>
      ContinuesApart(turns, len, i, j)
  }

  /** So no two linked responses overlap, whatever the links are. */
  lemma {:induction false} PairsApartAllApart(turns: seq<Turn>, len: nat, chains: seq<seq<nat>>)
    requires TurnsOk(turns, len) && ChainsOk(turns, len, chains) && EveryPairApart(turns, len)
    ensures AllApart(turns, len, chains)
  {
    forall a | 0 <= a < |chains| ensures ChainOk(turns, len, chains[a]) && ChainApart(turns, chains[a]) {
      var c := chains[a];
      ChainOnce(chains, a);
      assert ChainOk(turns, len, c);
      forall j, k | 0 <= j && k == j + 1 && k < |c| ensures Apart(turns[c[j]], turns[c[k]]) {
        assert LinkOk(turns, len, c[j], c[k]);
        OnceApart(c, j, k);
        assert ContinuesApart(turns, len, c[j], c[k]);
      }
    }
  }

  /** Response spans of a trajectory's turns that do not overlap, none of them empty. */
  ghost predicate DisjointSpans(turns: seq<Turn>) {
    && (forall i :: 0 <= i < |turns| ==> turns[i].resp > 0)
    && forall i, j :: 0 <= i < |turns| && 0 <= j < |turns| && i != j && turns[i].traj == turns[j].traj ==>
         Apart(turns[i], turns[j]) || Apart(turns[j], turns[i])
  }

  lemma {:induction false} DisjointPairsApart(turns: seq<Turn>, len: nat)
    requires TurnsOk(turns, len) && DisjointSpans(turns)
    ensures EveryPairApart(turns, len)
  {
  }

  /** What folding demands of a batch: every turn responds, and a trajectory has one reward. */
  ghost predicate Foldable(turns: seq<Turn>) {
    && (forall i :: 0 <= i < |turns| ==> turns[i].resp > 0)
    && forall i, j :: 0 <= i < |turns| && 0 <= j < |turns| && turns[i].traj == turns[j].traj ==>
         turns[i].reward == turns[j].reward
  }

  lemma {:induction false} ChainTraj(turns: seq<Turn>, len: nat, c: seq<nat>, j: nat)
    requires TurnsOk(turns, len) && ChainOk(turns, len, c) && j < |c|
    ensures turns[c[j]].traj == turns[c[0]].traj
  {
    if j > 0 {
      ChainTraj(turns, len, c, j - 1);
      assert LinkOk(turns, len, c[j - 1], c[j]);
    }
  }

  lemma {:induction false} FoldableChain(turns: seq<Turn>, len: nat, c: seq<nat>)
    requires TurnsOk(turns, len) && ChainOk(turns, len, c) && Foldable(turns)
    ensures FoldOf(turns, len, c).Ok?
  {
    var rows := RowsOf(turns, c);
    forall j | 0 <= j < |rows| ensures rows[j].reward == rows[0].reward {
      ChainTraj(turns, len, c, j);
    }
  }

  lemma {:induction false} FoldableChains(turns: seq<Turn>, len: nat, chains: seq<seq<nat>>, n: nat)
    requires TurnsOk(turns, len) && ChainsOk(turns, len, chains) && n <= |chains| && Foldable(turns)
    ensures FirstError(turns, len, chains, n).None?
  {
    if n > 0 {
      FoldableChains(turns, len, chains, n - 1);
      FoldableChain(turns, len, chains[n - 1]);
    }
  }

  /**
   On every batch of responding turns, with one reward per trajectory and no overlap, packing keeps
   the mean objective.
  */
  lemma {:induction false} DisjointBatchKeepsMean(turns: seq<Turn>, len: nat, value: TokenValue)
    requires TurnsOk(turns, len) && turns != [] && Foldable(turns)
    requires EveryPairApart(turns, len) || DisjointSpans(turns)
    ensures Packs(turns, len) && Packed(turns, len, true) != []
    ensures MeanValue(Packed(turns, len, true), value) == MeanValue(turns, value)
    ensures SumValues(Packed(turns, len, false), value) == SumValues(turns, value)
  {
    if !EveryPairApart(turns, len) {
      DisjointPairsApart(turns, len);
    }
    var chains := ChainsOf(turns, len);
    ChainsOfOk(turns, len);
    FoldableChains(turns, len, chains, |chains|);
    PairsApartAllApart(turns, len, chains);
    PackKeepsMean(turns, len, value);
  }

  lemma {:induction false} SameQuotient(a: real, b: real, n: real)
    requires n > 0.0
    ensures a / n == b / n ==> a == b
  {
    assert a == a / n * n && b == b / n * n;
  }

  /** With positive scales, packing keeps the mean objective exactly if no two linked responses overlap. */
  lemma {:induction false} PackKeepsMeanExactly(turns: seq<Turn>, len: nat)
    requires TurnsOk(turns, len) && Packs(turns, len) && PositiveScales(turns, len)
    requires ChainsOk(turns, len, ChainsOf(turns, len))
    ensures Packed(turns, len, true) != []
    ensures AllApart(turns, len, ChainsOf(turns, len))
      <==> forall value: TokenValue :: MeanValue(Packed(turns, len, true), value) == MeanValue(turns, value)
  {
    PackedMean(turns, len, One());
    if AllApart(turns, len, ChainsOf(turns, len)) {
      forall value: TokenValue ensures MeanValue(Packed(turns, len, true), value) == MeanValue(turns, value) {
        PackKeepsMean(turns, len, value);
      }
    } else {
      TotalKept(turns, len, One(), ChainsOf(turns, len));
      SameQuotient(SumValues(Kept(turns, len), One()), SumValues(turns, One()), |turns| as real);
      assert MeanValue(Packed(turns, len, true), One()) != MeanValue(turns, One());
    }
  }

  // ---------------------------------------------------------------- survivors

  /** Every turn is left, or belongs to exactly one chain, whose last turn is left. */
  lemma {:induction false} LeftOrFolded(turns: seq<Turn>, len: nat, chains: seq<seq<nat>>, i: nat) returns (a: nat)
    requires TurnsOk(turns, len) && ChainsOk(turns, len, chains) && i in Prefixes(chains)
    ensures a < |chains| && ChainOk(turns, len, chains[a]) && i in chains[a]
    ensures chains[a][|chains[a]| - 1] !in Prefixes(chains) && chains[a][|chains[a]| - 1] != i
    ensures forall b :: 0 <= b < |chains| && i in chains[b] ==> b == a
  {
    a :| 0 <= a < |chains| && !OnlyLast(chains[a], i);
    var j :| 0 <= j < |chains[a]| - 1 && chains[a][j] == i;
    assert ChainOk(turns, len, chains[a]);
    LastNotPrefix(turns, len, chains, a);
    ChainOnce(chains, a);
    OnceApart(chains[a], j, |chains[a]| - 1);
    forall b | 0 <= b < |chains| && i in chains[b] ensures b == a {
      ChainsApart(chains, a, b, i);
    }
  }

  /** The folded last turn ends where it ended, and in a disjoint chain every member's tokens start its row. */
  lemma {:induction false} FoldedRow(turns: seq<Turn>, len: nat, c: seq<nat>, j: nat)
    requires TurnsOk(turns, len) && ChainOk(turns, len, c) && FoldOf(turns, len, c).Ok? && j < |c|
    ensures End(FoldOf(turns, len, c).value) == End(turns[c[|c| - 1]])
    ensures FoldOf(turns, len, c).value.prompt == turns[c[0]].prompt
    ensures End(turns[c[j]]) <= |turns[c[j]].ids|
    ensures ChainApart(turns, c) ==> turns[c[j]].ids[..End(turns[c[j]])] <= FoldOf(turns, len, c).value.ids
  {
    assert TurnOk(turns[c[j]], len);
    if ChainApart(turns, c) {
      LaterTurns(turns, len, c, j, |c| - 1);
    }
  }

  // ---------------------------------------------------------------- two linked turns that overlap

  /** Two turns of one trajectory, of which the second continues the first. */
  ghost predicate Pair(turns: seq<Turn>, len: nat) {
    && |turns| == 2 && TurnsOk(turns, len) && turns[0].traj == turns[1].traj
    && turns[0].prompt <= turns[1].prompt && Compatible(turns[0], turns[1])
  }

  lemma {:induction false} PairTurns(turns: seq<Turn>)
    requires |turns| == 2 && turns[0].traj == turns[1].traj
    ensures Trajs(turns) == [turns[0].traj] && TurnsOf(turns, turns[0].traj) == [0, 1]
  {
    KeysAre(TrajNumbers(turns), Range(2), turns[0].traj);
  }

  lemma {:induction false} PairOrder(turns: seq<Turn>)
    requires |turns| == 2 && turns[0].prompt <= turns[1].prompt
    ensures SortByPrompt(turns, [0, 1]) == [0, 1]
  {
    var two: seq<nat>, one: seq<nat>, none: seq<nat> := [0, 1], [0], [];
    assert two[..1] == one && one[..0] == none;
    assert SortByPrompt(turns, none) == none;
    assert InsertByPrompt(turns, none, 0) == one;
    assert SortByPrompt(turns, one) == one;
    assert InsertByPrompt(turns, one, 1) == two;
  }

  lemma {:induction false} PairLinks(turns: seq<Turn>, len: nat)
    requires Pair(turns, len)
    ensures LinkTraj(turns, len, [0, 1], 2, Links([], {})) == Links([[0, 1]], {1})
  {
    var idxes: seq<nat>, start := [0, 1], Links([], {});
    assert LinkTraj(turns, len, idxes, 0, start) == start;
    assert FirstRight(turns, len, idxes, 0, 1, {}) == 1;
    assert Extend([], 0, 1) == [[0, 1]];
    assert LinkTraj(turns, len, idxes, 1, start) == Links([[0, 1]], {1});
    assert FirstRight(turns, len, idxes, 1, 2, {1}) == 2;
  }

  lemma {:induction false} PairChain(turns: seq<Turn>, len: nat)
    requires Pair(turns, len)
    ensures ChainsOf(turns, len) == [[0, 1]]
  {
    PairTurns(turns);
    PairOrder(turns);
    PairLinks(turns, len);
    var trajs := Trajs(turns);
    assert LinkTrajs(turns, len, trajs, 0) == Links([], {});
    assert LinkTrajs(turns, len, trajs, 1) == Links([[0, 1]], {1});
  }

  /** A linked pair that shares a response position packs, and its mean objective grows. */
  lemma {:induction false} OverlapChangesMean(turns: seq<Turn>, len: nat)
    requires Pair(turns, len) && PositiveScales(turns, len) && !Apart(turns[0], turns[1])
    requires turns[0].reward == turns[1].reward && turns[0].resp > 0 && turns[1].resp > 0
    ensures Packs(turns, len) && Packed(turns, len, true) != []
    ensures MeanValue(Packed(turns, len, true), One()) != MeanValue(turns, One())
  {
    PairChain(turns, len);
    ChainsOfOk(turns, len);
    PairPacks(turns, len, ChainsOf(turns, len));
    assert !ChainApart(turns, [0, 1]) by {
      assert !Apart(turns[[0, 1][0]], turns[[0, 1][1]]);
    }
    assert !AllApart(turns, len, ChainsOf(turns, len));
    TotalKept(turns, len, One(), ChainsOf(turns, len));
    PackedMean(turns, len, One());
    SameQuotient(SumValues(Kept(turns, len), One()), SumValues(turns, One()), |turns| as real);
  }

  lemma {:induction false} PairPacks(turns: seq<Turn>, len: nat, chains: seq<seq<nat>>)
    requires Pair(turns, len) && chains == [[0, 1]] && ChainsOk(turns, len, chains)
    requires turns[0].reward == turns[1].reward && turns[0].resp > 0 && turns[1].resp > 0
    ensures FirstError(turns, len, chains, 1).None?
  {
    var rows := RowsOf(turns, chains[0]);
    assert SameRewards(rows) && AllRespond(rows);
    assert FirstError(turns, len, chains, 0).None?;
  }

  function OverlapExample(): seq<Turn> {
    [Turn(0, [7, 8, 9], 0, 2, Span(3, 0, 2), 1.0, [0.0, 0.0, 0.0], [0.0, 0.0, 0.0], [1.0, 1.0, 1.0]),
     Turn(0, [7, 8, 9], 1, 2, Span(3, 1, 3), 1.0, [0.0, 0.0, 0.0], [0.0, 0.0, 0.0], [1.0, 1.0, 1.0])]
  }

  /** Responses that share one position are linked all the same. */
  lemma {:induction false} OverlapIsLinked()
    ensures Pair(OverlapExample(), 3) && PositiveScales(OverlapExample(), 3)
    ensures !Apart(OverlapExample()[0], OverlapExample()[1])
  {
    var turns := OverlapExample();
    var both := Both(turns[0].mask, turns[1].mask);
    assert both[0] == false && both[1] == true && both[2] == false;
    assert CountTo(both, 0) == 0 && CountTo(both, 1) == 0 && CountTo(both, 2) == 1 && CountTo(both, 3) == 1;
  }

  // ---------------------------------------------------------------- which rows are left, and where

  /** How many of the first n positions are not gone. */
  function Left(gone: set<nat>, n: nat): nat {
    if n == 0 then 0 else Left(gone, n - 1) + if n - 1 in gone then 0 else 1
  }

  lemma {:induction false} SurvivorsLength(rows: seq<Turn>, gone: set<nat>, n: nat)
    requires n <= |rows|
    ensures |Survivors(rows, gone, n)| == Left(gone, n)
  {
    if n > 0 {
      SurvivorsLength(rows, gone, n - 1);
    }
  }

  lemma {:induction false} SurvivorAt(rows: seq<Turn>, gone: set<nat>, n: nat, i: nat)
    requires i < n <= |rows| && i !in gone
    ensures Left(gone, i) < |Survivors(rows, gone, n)| && Survivors(rows, gone, n)[Left(gone, i)] == rows[i]
  {
    if i < n - 1 {
      SurvivorAt(rows, gone, n - 1, i);
    } else {
      SurvivorsLength(rows, gone, i);
    }
  }

  /**
   The packed batch has one row for every turn that no other one continues, in the order of the
   turns: the row of turn i stands behind those of the turns left before it.
  */
  lemma {:induction false} RowsInOrder(turns: seq<Turn>, len: nat, i: nat)
    requires TurnsOk(turns, len) && Packs(turns, len) && i < |turns|
    requires NotLeft(ChainsOf(turns, len), i)
    ensures ChainsOk(turns, len, ChainsOf(turns, len))
    ensures var chains := ChainsOf(turns, len);
      && |Packed(turns, len, false)| == |Packed(turns, len, true)| == Left(Prefixes(chains), |turns|)
      && Left(Prefixes(chains), i) < |Packed(turns, len, false)|
      && Packed(turns, len, false)[Left(Prefixes(chains), i)] == FoldedAt(turns, len, chains, |chains|, i)
  {
    ChainsOfOk(turns, len);
    var chains := ChainsOf(turns, len);
    var rows := Folded(turns, len, chains, |chains|);
    SurvivorsLength(rows, Prefixes(chains), |turns|);
    SurvivorAt(rows, Prefixes(chains), |turns|, i);
  }

  // ---------------------------------------------------------------- what makes packing fail

  /** Folding a chain fails on differing rewards first, and then on a turn without a response. */
  lemma {:induction false} FoldFailsExactly(turns: seq<Turn>, len: nat, c: seq<nat>)
    requires TurnsOk(turns, len) && ChainOk(turns, len, c)
    ensures FoldOf(turns, len, c) == Err(AssertionError)
      <==> exists j :: 0 <= j < |c| && turns[c[j]].reward != turns[c[0]].reward
    ensures FoldOf(turns, len, c) == Err(ZeroDivisionError)
      <==> (forall j :: 0 <= j < |c| ==> turns[c[j]].reward == turns[c[0]].reward)
           && exists j :: 0 <= j < |c| && turns[c[j]].resp == 0
  {
    ChainRowsOk(turns, len, c);
    var rows := RowsOf(turns, c);
    if j :| 0 <= j < |c| && turns[c[j]].reward != turns[c[0]].reward {
      assert rows[j].reward != rows[0].reward;
    }
    if j :| 0 <= j < |c| && turns[c[j]].resp == 0 {
      assert rows[j].resp == 0;
    }
    if !SameRewards(rows) {
      var j :| 0 <= j < |rows| && rows[j].reward != rows[0].reward;
      assert turns[c[j]].reward != turns[c[0]].reward;
    } else if !AllRespond(rows) {
      var j :| 0 <= j < |rows| && rows[j].resp <= 0;
      assert turns[c[j]].resp == 0;
    }
  }

  /** The first chain that cannot be folded decides the error. */
  lemma {:induction false} FirstFailure(turns: seq<Turn>, len: nat, chains: seq<seq<nat>>, n: nat, a: nat)
    requires TurnsOk(turns, len) && ChainsOk(turns, len, chains) && a < n <= |chains|
    requires FoldOf(turns, len, chains[a]).Err? && forall b :: 0 <= b < a ==> FoldOf(turns, len, chains[b]).Ok?
    ensures FirstError(turns, len, chains, n) == Some(FoldOf(turns, len, chains[a]).error)
  {
    if a < n - 1 {
      FirstFailure(turns, len, chains, n - 1, a);
    } else {
      NoFailure(turns, len, chains, a);
    }
  }

  lemma {:induction false} NoFailure(turns: seq<Turn>, len: nat, chains: seq<seq<nat>>, n: nat)
    requires TurnsOk(turns, len) && ChainsOk(turns, len, chains) && n <= |chains|
    requires forall b :: 0 <= b < n ==> FoldOf(turns, len, chains[b]).Ok?
    ensures FirstError(turns, len, chains, n).None?
  {
    if n > 0 {
      NoFailure(turns, len, chains, n - 1);
    }
  }
}
