/**
 Folding a chain of turns into its last turn. The packed turn carries every member's advantages and
 log-probabilities on that member's response, and loss scales that make up for the shared length.
 For any per-token value the mean over sequences of the scaled, length-normalised sum is the same
 before and after, exactly if no two linked responses overlap.
*/
module TurnPacking {
  import opened TurnChains

  // ---------------------------------------------------------------- sums over a chain

  function SumOver(f: nat -> real, c: seq<nat>): real {
    if c == [] then 0.0 else f(c[0]) + SumOver(f, c[1..])
  }

  lemma {:induction false} SumOverLinear(f: nat -> real, g: nat -> real, h: nat -> real, a: real, c: seq<nat>)
    requires forall i: nat :: i in c ==> h(i) == f(i) + a * g(i)
    ensures SumOver(h, c) == SumOver(f, c) + a * SumOver(g, c)
  {
    if c != [] {
      SumOverLinear(f, g, h, a, c[1..]);
    }
  }

  lemma {:induction false} SumOverZero(f: nat -> real, c: seq<nat>)
    requires forall j :: 0 <= j < |c| ==> f(c[j]) == 0.0
    ensures SumOver(f, c) == 0.0
  {
    if c != [] {
      SumOverZero(f, c[1..]);
    }
  }

  /** All terms but one are zero. */
  lemma {:induction false} SumOverSingle(f: nat -> real, c: seq<nat>, q: nat)
    requires q < |c| && forall j :: 0 <= j < |c| && j != q ==> f(c[j]) == 0.0
    ensures SumOver(f, c) == f(c[q])
  {
    if q == 0 {
      SumOverZero(f, c[1..]);
    } else {
      SumOverSingle(f, c[1..], q - 1);
    }
  }

  // ---------------------------------------------------------------- the packed turn

  /** Whether the turn has a response token at the position. */
  predicate MaskedAt(turns: seq<Turn>, i: nat, p: nat) {
    i < |turns| && p < |turns[i].mask| && turns[i].mask[p]
  }

  function AdvAt(turns: seq<Turn>, p: nat): nat -> real {
    (i: nat) => if MaskedAt(turns, i, p) && p < |turns[i].advs| then turns[i].advs[p] else 0.0
  }

  function LogpAt(turns: seq<Turn>, p: nat): nat -> real {
    (i: nat) => if MaskedAt(turns, i, p) && p < |turns[i].logps| then turns[i].logps[p] else 0.0
  }

  function Count(t: Turn): nat {
    CountTo(t.mask, |t.mask|)
  }

  function CountOf(turns: seq<Turn>, i: nat): nat {
    if i < |turns| then Count(turns[i]) else 0
  }

  function CountAll(turns: seq<Turn>, c: seq<nat>): nat {
    if c == [] then 0 else CountOf(turns, c[0]) + CountAll(turns, c[1..])
  }

  /** `masked_count_all / masked_counts[i]`. */
  function Ratio(all: nat, own: nat): real {
    if own == 0 then 0.0 else all as real / own as real
  }

  function ScaleAt(turns: seq<Turn>, all: nat, p: nat): nat -> real {
    (i: nat) =>
      if MaskedAt(turns, i, p) && p < |turns[i].scales| then turns[i].scales[p] * Ratio(all, CountOf(turns, i)) else 0.0
  }

  predicate AnyAt(turns: seq<Turn>, c: seq<nat>, p: nat)
    ensures AnyAt(turns, c, p) <==> exists j :: 0 <= j < |c| && MaskedAt(turns, c[j], p)
  {
    c != [] && (MaskedAt(turns, c[0], p) || AnyAt(turns, c[1..], p))
  }

  /** The chain's last turn after folding the chain into it. */
  function Merged(turns: seq<Turn>, len: nat, c: seq<nat>): (r: Turn)
    requires TurnsOk(turns, len) && ChainOk(turns, len, c)
    ensures |r.ids| == |r.mask| == |r.advs| == |r.logps| == |r.scales| == len
  {
    ChainPrompts(turns, len, c, |c| - 1);
    var first, last := turns[c[0]], turns[c[|c| - 1]];
    last.(
      mask := seq(len, p requires 0 <= p < len => AnyAt(turns, c, p)),
      advs := seq(len, p requires 0 <= p < len => SumOver(AdvAt(turns, p), c)),
      logps := seq(len, p requires 0 <= p < len => SumOver(LogpAt(turns, p), c)),
      scales := seq(len, p requires 0 <= p < len => SumOver(ScaleAt(turns, CountAll(turns, c), p), c)),
      prompt := first.prompt,
      resp := End(last) - first.prompt)
  }

  lemma {:induction false} ChainPrompts(turns: seq<Turn>, len: nat, c: seq<nat>, n: nat)
    requires TurnsOk(turns, len) && ChainOk(turns, len, c) && n < |c|
    ensures turns[c[0]].prompt <= turns[c[n]].prompt
  {
    if n > 0 {
      ChainPrompts(turns, len, c, n - 1);
      assert LinkOk(turns, len, c[n - 1], c[n]);
    }
  }

  // ---------------------------------------------------------------- disjoint chains

  /** The right turn's response starts where the left one's has ended. */
  predicate Apart(left: Turn, right: Turn) {
    End(left) <= right.prompt
  }

  ghost predicate ChainApart(turns: seq<Turn>, c: seq<nat>)
    requires forall a :: 0 <= a < |c| ==> c[a] < |turns|
  {
    forall j, k {:trigger Apart(turns[c[j]], turns[c[k]])} :: 0 <= j && k == j + 1 && k < |c| ==>
      Apart(turns[c[j]], turns[c[k]])
  }

  /** In a chain of disjoint links all responses are disjoint and every row is a prefix of the last one. */
  lemma {:induction false} LaterTurns(turns: seq<Turn>, len: nat, c: seq<nat>, a: nat, b: nat)
    requires TurnsOk(turns, len) && ChainOk(turns, len, c) && ChainApart(turns, c) && a <= b < |c|
    ensures a < b ==> End(turns[c[a]]) <= turns[c[b]].prompt
    ensures End(turns[c[a]]) <= End(turns[c[b]]) <= len
    ensures turns[c[a]].ids[..End(turns[c[a]])] == turns[c[b]].ids[..End(turns[c[a]])]
  {
    assert TurnOk(turns[c[b]], len);
    if a < b {
      LaterTurns(turns, len, c, a, b - 1);
      assert LinkOk(turns, len, c[b - 1], c[b]) && Apart(turns[c[b - 1]], turns[c[b]]);
      var x, y, e := turns[c[b - 1]].ids, turns[c[b]].ids, End(turns[c[a]]);
      assert x[..End(turns[c[b - 1]])][..e] == x[..e] && y[..End(turns[c[b - 1]])][..e] == y[..e];
    }
  }

  /** A response token of a disjoint chain has one owner. */
  lemma {:induction false} OneOwner(turns: seq<Turn>, len: nat, c: seq<nat>, q: nat, j: nat, p: nat)
    requires TurnsOk(turns, len) && ChainOk(turns, len, c) && ChainApart(turns, c)
    requires q < |c| && j < |c| && MaskedAt(turns, c[q], p) && MaskedAt(turns, c[j], p)
    ensures j == q
  {
    assert TurnOk(turns[c[q]], len) && TurnOk(turns[c[j]], len);
    if j < q {
      LaterTurns(turns, len, c, j, q);
    } else if q < j {
      LaterTurns(turns, len, c, q, j);
    }
  }

  lemma {:induction false} OwnerSums(turns: seq<Turn>, len: nat, c: seq<nat>, q: nat, p: nat, all: nat)
    requires q < |c| && c[q] < |turns| && TurnOk(turns[c[q]], len) && MaskedAt(turns, c[q], p)
    requires forall j :: 0 <= j < |c| && j != q ==> !MaskedAt(turns, c[j], p)
    ensures SumOver(AdvAt(turns, p), c) == turns[c[q]].advs[p]
    ensures SumOver(LogpAt(turns, p), c) == turns[c[q]].logps[p]
    ensures SumOver(ScaleAt(turns, all, p), c) == turns[c[q]].scales[p] * Ratio(all, Count(turns[c[q]]))
  {
    SumOverSingle(AdvAt(turns, p), c, q);
    SumOverSingle(LogpAt(turns, p), c, q);
    SumOverSingle(ScaleAt(turns, all, p), c, q);
  }

  lemma {:induction false} OwnerPrefix(turns: seq<Turn>, len: nat, c: seq<nat>, q: nat, p: nat)
    requires TurnsOk(turns, len) && ChainOk(turns, len, c) && ChainApart(turns, c)
    requires q < |c| && p < End(turns[c[q]])
    ensures p < len && turns[c[|c| - 1]].ids[..p + 1] == turns[c[q]].ids[..p + 1]
  {
    LaterTurns(turns, len, c, q, |c| - 1);
    var own, last := turns[c[q]].ids, turns[c[|c| - 1]].ids;
    assert own[..p + 1] == own[..End(turns[c[q]])][..p + 1];
    assert last[..p + 1] == last[..End(turns[c[q]])][..p + 1];
  }

  /** Each packed response token carries its owner's values, and the same tokens precede it. */
  lemma {:induction false} OwnerValues(turns: seq<Turn>, len: nat, c: seq<nat>, q: nat, p: nat)
    requires TurnsOk(turns, len) && ChainOk(turns, len, c) && ChainApart(turns, c)
    requires q < |c| && p < len && MaskedAt(turns, c[q], p)
    ensures var m, own := Merged(turns, len, c), turns[c[q]];
      && m.mask[p] && m.advs[p] == own.advs[p] && m.logps[p] == own.logps[p]
      && m.scales[p] == own.scales[p] * Ratio(CountAll(turns, c), Count(own))
      && m.ids[..p + 1] == own.ids[..p + 1]
  {
    forall j | 0 <= j < |c| && j != q ensures !MaskedAt(turns, c[j], p) {
      if MaskedAt(turns, c[j], p) {
        OneOwner(turns, len, c, q, j, p);
      }
    }
    OwnerSums(turns, len, c, q, p, CountAll(turns, c));
    OwnerPrefix(turns, len, c, q, p);
  }

  // ---------------------------------------------------------------- the objective

  /** A per-token value: of the tokens up to the position, its advantage and its log-probability. */
  type TokenValue = (seq<int>, real, real) -> real

  function TermAt(t: Turn, value: TokenValue, p: nat): real {
    if p < |t.mask| && t.mask[p] && p < |t.ids| && p < |t.advs| && p < |t.logps| && p < |t.scales| then
      t.scales[p] * value(t.ids[..p + 1], t.advs[p], t.logps[p])
    else 0.0
  }

  function WeightTo(t: Turn, value: TokenValue, n: nat): real {
    if n == 0 then 0.0 else WeightTo(t, value, n - 1) + TermAt(t, value, n - 1)
  }

  /** The scaled sum over response tokens divided by their number; zero for an empty response. */
  function Value(t: Turn, value: TokenValue): real {
    if Count(t) == 0 then 0.0 else WeightTo(t, value, |t.mask|) / Count(t) as real
  }

  function SumBy(f: Turn -> real, turns: seq<Turn>): real {
    if turns == [] then 0.0 else SumBy(f, turns[..|turns| - 1]) + f(turns[|turns| - 1])
  }

  function ByValue(value: TokenValue): Turn -> real {
    (t: Turn) => Value(t, value)
  }

  function SumValues(turns: seq<Turn>, value: TokenValue): real {
    SumBy(ByValue(value), turns)
  }

  function MeanValue(turns: seq<Turn>, value: TokenValue): real
    requires turns != []
  {
    SumValues(turns, value) / |turns| as real
  }

  function One(): TokenValue {
    (ids: seq<int>, adv: real, logp: real) => 1.0
  }

  // ---------------------------------------------------------------- one chain's objective

  function RescaledTerm(turns: seq<Turn>, all: nat, value: TokenValue, p: nat): nat -> real {
    (i: nat) => if i < |turns| then Ratio(all, CountOf(turns, i)) * TermAt(turns[i], value, p) else 0.0
  }

  function RescaledWeight(turns: seq<Turn>, all: nat, value: TokenValue, n: nat): nat -> real {
    (i: nat) => if i < |turns| then Ratio(all, CountOf(turns, i)) * WeightTo(turns[i], value, n) else 0.0
  }

  function ValueOf(turns: seq<Turn>, value: TokenValue): nat -> real {
    (i: nat) => if i < |turns| then Value(turns[i], value) else 0.0
  }

  lemma {:induction false} Regroup(s: real, r: real, v: real)
    ensures (s * r) * v == r * (s * v)
  {
  }

  /** Position p of a packed row is that of one turn, rescaled. */
  ghost predicate Owned(m: Turn, own: Turn, p: nat, all: nat) {
    && p < |m.mask| == |m.ids| == |m.advs| == |m.logps| == |m.scales|
    && p < |own.mask| == |own.ids| == |own.advs| == |own.logps| == |own.scales|
    && m.mask[p] && own.mask[p] && m.advs[p] == own.advs[p] && m.logps[p] == own.logps[p]
    && m.scales[p] == own.scales[p] * Ratio(all, Count(own)) && m.ids[..p + 1] == own.ids[..p + 1]
  }

  lemma {:induction false} OwnerHas(turns: seq<Turn>, len: nat, c: seq<nat>, q: nat, p: nat)
    requires TurnsOk(turns, len) && ChainOk(turns, len, c) && ChainApart(turns, c)
    requires q < |c| && p < len && MaskedAt(turns, c[q], p)
    ensures Owned(Merged(turns, len, c), turns[c[q]], p, CountAll(turns, c))
  {
    OwnerValues(turns, len, c, q, p);
    assert TurnOk(turns[c[q]], len);
  }

  lemma {:induction false} OwnedTerm(turns: seq<Turn>, all: nat, value: TokenValue, p: nat, m: Turn, i: nat)
    requires i < |turns| && Owned(m, turns[i], p, all)
    ensures TermAt(m, value, p) == RescaledTerm(turns, all, value, p)(i)
  {
    var own := turns[i];
    Regroup(own.scales[p], Ratio(all, Count(own)), value(own.ids[..p + 1], own.advs[p], own.logps[p]));
  }

  lemma {:induction false} DisjointTerm(turns: seq<Turn>, len: nat, c: seq<nat>, value: TokenValue, p: nat)
    requires TurnsOk(turns, len) && ChainOk(turns, len, c) && ChainApart(turns, c) && p < len
    ensures TermAt(Merged(turns, len, c), value, p) == SumOver(RescaledTerm(turns, CountAll(turns, c), value, p), c)
  {
    var all := CountAll(turns, c);
    var f := RescaledTerm(turns, all, value, p);
    if AnyAt(turns, c, p) {
      var q :| 0 <= q < |c| && MaskedAt(turns, c[q], p);
      OwnerHas(turns, len, c, q, p);
      OwnedTerm(turns, all, value, p, Merged(turns, len, c), c[q]);
      forall j | 0 <= j < |c| && j != q ensures f(c[j]) == 0.0 {
        if MaskedAt(turns, c[j], p) {
          OneOwner(turns, len, c, q, j, p);
        }
      }
      SumOverSingle(f, c, q);
    } else {
      forall j | 0 <= j < |c| ensures f(c[j]) == 0.0 {
        assert !MaskedAt(turns, c[j], p);
      }
      SumOverZero(f, c);
    }
  }

  lemma {:induction false} UnitTermOf(turns: seq<Turn>, len: nat, all: nat, i: nat, p: nat)
    requires TurnsOk(turns, len) && i < |turns| && p < len
    ensures RescaledTerm(turns, all, One(), p)(i) == ScaleAt(turns, all, p)(i)
  {
    assert TurnOk(turns[i], len);
    Regroup(turns[i].scales[p], Ratio(all, CountOf(turns, i)), 1.0);
  }

  lemma {:induction false} SumOverEqual(f: nat -> real, g: nat -> real, c: seq<nat>)
    requires forall j :: 0 <= j < |c| ==> f(c[j]) == g(c[j])
    ensures SumOver(f, c) == SumOver(g, c)
  {
    if c != [] {
      SumOverEqual(f, g, c[1..]);
    }
  }

  /** For the value 1 the terms add up even where responses overlap. */
  lemma {:induction false} UnitTerm(turns: seq<Turn>, len: nat, c: seq<nat>, p: nat)
    requires TurnsOk(turns, len) && ChainOk(turns, len, c) && p < len
    ensures TermAt(Merged(turns, len, c), One(), p) == SumOver(RescaledTerm(turns, CountAll(turns, c), One(), p), c)
  {
    var all := CountAll(turns, c);
    forall j | 0 <= j < |c| ensures RescaledTerm(turns, all, One(), p)(c[j]) == ScaleAt(turns, all, p)(c[j]) {
      UnitTermOf(turns, len, all, c[j], p);
    }
    SumOverEqual(RescaledTerm(turns, all, One(), p), ScaleAt(turns, all, p), c);
    if !AnyAt(turns, c, p) {
      SumOverZero(ScaleAt(turns, all, p), c);
    }
  }

  lemma {:induction false} MergedTerm(turns: seq<Turn>, len: nat, c: seq<nat>, value: TokenValue, p: nat)
    requires TurnsOk(turns, len) && ChainOk(turns, len, c) && p < len
    requires ChainApart(turns, c) || value == One()
    ensures TermAt(Merged(turns, len, c), value, p) == SumOver(RescaledTerm(turns, CountAll(turns, c), value, p), c)
  {
    if value == One() {
      UnitTerm(turns, len, c, p);
    } else {
      DisjointTerm(turns, len, c, value, p);
    }
  }

  lemma {:induction false} WeightStep(turns: seq<Turn>, c: seq<nat>, all: nat, value: TokenValue, n: nat)
    ensures SumOver(RescaledWeight(turns, all, value, n + 1), c)
      == SumOver(RescaledWeight(turns, all, value, n), c) + SumOver(RescaledTerm(turns, all, value, n), c)
  {
    var f, g := RescaledWeight(turns, all, value, n), RescaledTerm(turns, all, value, n);
    var h := RescaledWeight(turns, all, value, n + 1);
    forall i: nat | i in c ensures h(i) == f(i) + 1.0 * g(i) {
      if i < |turns| {
        assert WeightTo(turns[i], value, n + 1) == WeightTo(turns[i], value, n) + TermAt(turns[i], value, n);
      }
    }
    SumOverLinear(f, g, h, 1.0, c);
  }

  /** A turn whose terms are the sums of its members' rescaled terms has the sum of their rescaled weights. */
  lemma {:induction false} WeightFromTerms(m: Turn, turns: seq<Turn>, c: seq<nat>, all: nat, value: TokenValue, n: nat)
    requires forall p: nat {:trigger TermAt(m, value, p)} :: p < n ==>
      TermAt(m, value, p) == SumOver(RescaledTerm(turns, all, value, p), c)
    ensures WeightTo(m, value, n) == SumOver(RescaledWeight(turns, all, value, n), c)
  {
    if n == 0 {
      SumOverZero(RescaledWeight(turns, all, value, 0), c);
    } else {
      WeightFromTerms(m, turns, c, all, value, n - 1);
      WeightStep(turns, c, all, value, n - 1);
    }
  }

  /** The packed turn's weight is the sum of its members' weights, each times all / own tokens. */
  lemma {:induction false} MergedWeight(turns: seq<Turn>, len: nat, c: seq<nat>, value: TokenValue, n: nat)
    requires TurnsOk(turns, len) && ChainOk(turns, len, c) && n <= len
    requires ChainApart(turns, c) || value == One()
    ensures WeightTo(Merged(turns, len, c), value, n) == SumOver(RescaledWeight(turns, CountAll(turns, c), value, n), c)
  {
    var m := Merged(turns, len, c);
    forall p: nat {:trigger TermAt(m, value, p)} | p < n
      ensures TermAt(m, value, p) == SumOver(RescaledTerm(turns, CountAll(turns, c), value, p), c)
    {
      MergedTerm(turns, len, c, value, p);
    }
    WeightFromTerms(m, turns, c, CountAll(turns, c), value, n);
  }

  // ---------------------------------------------------------------- counting packed tokens

  function OwnersAt(turns: seq<Turn>, c: seq<nat>, p: nat): nat {
    if c == [] then 0 else (if MaskedAt(turns, c[0], p) then 1 else 0) + OwnersAt(turns, c[1..], p)
  }

  lemma {:induction false} AnyOwner(turns: seq<Turn>, c: seq<nat>, p: nat)
    ensures AnyAt(turns, c, p) <==> OwnersAt(turns, c, p) > 0
  {
    if c != [] {
      AnyOwner(turns, c[1..], p);
    }
  }

  lemma {:induction false} NoOwners(turns: seq<Turn>, c: seq<nat>, p: nat)
    requires forall j :: 0 <= j < |c| ==> !MaskedAt(turns, c[j], p)
    ensures OwnersAt(turns, c, p) == 0
  {
    if c != [] {
      NoOwners(turns, c[1..], p);
    }
  }

  lemma {:induction false} SingleOwner(turns: seq<Turn>, c: seq<nat>, q: nat, p: nat)
    requires q < |c| && forall j :: 0 <= j < |c| && j != q ==> !MaskedAt(turns, c[j], p)
    ensures OwnersAt(turns, c, p) <= 1
  {
    if q == 0 {
      NoOwners(turns, c[1..], p);
    } else {
      SingleOwner(turns, c[1..], q - 1, p);
    }
  }

  lemma {:induction false} TwoOwners(turns: seq<Turn>, c: seq<nat>, a: nat, b: nat, p: nat)
    requires a < b < |c| && MaskedAt(turns, c[a], p) && MaskedAt(turns, c[b], p)
    ensures OwnersAt(turns, c, p) >= 2
  {
    if a > 0 {
      TwoOwners(turns, c[1..], a - 1, b - 1, p);
    } else {
      assert c[1..][b - 1] == c[b];
      AnyOwner(turns, c[1..], p);
    }
  }

  /** All response tokens of the chain's turns before the position. */
  function CountAllTo(turns: seq<Turn>, c: seq<nat>, n: nat): nat
    requires forall j :: 0 <= j < |c| ==> c[j] < |turns| && n <= |turns[c[j]].mask|
  {
    if c == [] then 0 else CountTo(turns[c[0]].mask, n) + CountAllTo(turns, c[1..], n)
  }

  lemma {:induction false} CountAllStep(turns: seq<Turn>, c: seq<nat>, n: nat)
    requires forall j :: 0 <= j < |c| ==> c[j] < |turns| && n < |turns[c[j]].mask|
    ensures CountAllTo(turns, c, n + 1) == CountAllTo(turns, c, n) + OwnersAt(turns, c, n)
  {
    if c != [] {
      CountAllStep(turns, c[1..], n);
    }
  }

  lemma {:induction false} CountAllEnd(turns: seq<Turn>, c: seq<nat>, len: nat)
    requires forall j :: 0 <= j < |c| ==> c[j] < |turns| && len == |turns[c[j]].mask|
    ensures CountAllTo(turns, c, len) == CountAll(turns, c)
  {
    if c != [] {
      CountAllEnd(turns, c[1..], len);
    }
  }

  lemma {:induction false} CountAllStart(turns: seq<Turn>, c: seq<nat>)
    requires forall j :: 0 <= j < |c| ==> c[j] < |turns|
    ensures CountAllTo(turns, c, 0) == 0
  {
    if c != [] {
      CountAllStart(turns, c[1..]);
    }
  }

  ghost predicate SingleOwners(turns: seq<Turn>, c: seq<nat>, n: nat) {
    forall p: nat :: p < n ==> OwnersAt(turns, c, p) <= 1
  }

  /** The packed turn has at most as many response tokens as its members, and fewer exactly if two share one. */
  lemma {:induction false} UnionCount(turns: seq<Turn>, c: seq<nat>, mask: seq<bool>, n: nat)
    requires forall j :: 0 <= j < |c| ==> c[j] < |turns| && n <= |turns[c[j]].mask|
    requires n <= |mask| && forall p: nat :: p < n ==> mask[p] == AnyAt(turns, c, p)
    ensures CountTo(mask, n) <= CountAllTo(turns, c, n)
    ensures CountTo(mask, n) == CountAllTo(turns, c, n) <==> SingleOwners(turns, c, n)
  {
    if n == 0 {
      CountAllStart(turns, c);
    } else {
      UnionCount(turns, c, mask, n - 1);
      CountAllStep(turns, c, n - 1);
      AnyOwner(turns, c, n - 1);
      assert SingleOwners(turns, c, n) <==> SingleOwners(turns, c, n - 1) && OwnersAt(turns, c, n - 1) <= 1;
    }
  }

  lemma {:induction false} SpanCount(len: nat, first: nat, end: nat, n: nat)
    requires first <= end <= len && n <= len
    ensures CountTo(Span(len, first, end), n) == if n <= first then 0 else if n <= end then n - first else end - first
  {
    if n > 0 {
      SpanCount(len, first, end, n - 1);
    }
  }

  lemma {:induction false} CountIsResponse(t: Turn, len: nat)
    requires TurnOk(t, len)
    ensures Count(t) == t.resp
  {
    SpanCount(len, t.prompt, End(t), len);
  }

  /** Linked responses are disjoint exactly if no token of the chain has two owners. */
  lemma {:induction false} ApartIffSingle(turns: seq<Turn>, len: nat, c: seq<nat>)
    requires TurnsOk(turns, len) && ChainOk(turns, len, c) && forall j :: 0 <= j < |c| ==> turns[c[j]].resp > 0
    ensures ChainApart(turns, c) <==> SingleOwners(turns, c, len)
  {
    if ChainApart(turns, c) {
      forall p: nat | p < len ensures OwnersAt(turns, c, p) <= 1 {
        if AnyAt(turns, c, p) {
          var q :| 0 <= q < |c| && MaskedAt(turns, c[q], p);
          forall j | 0 <= j < |c| && j != q ensures !MaskedAt(turns, c[j], p) {
            if MaskedAt(turns, c[j], p) {
              OneOwner(turns, len, c, q, j, p);
            }
          }
          SingleOwner(turns, c, q, p);
        } else {
          AnyOwner(turns, c, p);
        }
      }
    }
    if SingleOwners(turns, c, len) {
      forall j, k | 0 <= j && k == j + 1 && k < |c| ensures Apart(turns[c[j]], turns[c[k]]) {
        assert LinkOk(turns, len, c[j], c[k]) && TurnOk(turns[c[j]], len) && TurnOk(turns[c[k]], len);
        var p := turns[c[k]].prompt;
        if p < End(turns[c[j]]) {
          TwoOwners(turns, c, j, k, p);
        }
      }
    }
  }

  // ---------------------------------------------------------------- one chain's value

  lemma {:induction false} SumOverScaled(f: nat -> real, g: nat -> real, a: real, c: seq<nat>)
    requires forall j :: 0 <= j < |c| ==> g(c[j]) == a * f(c[j])
    ensures SumOver(g, c) == a * SumOver(f, c)
  {
    if c != [] {
      SumOverScaled(f, g, a, c[1..]);
    }
  }

  lemma {:induction false} RescaledIsValue(t: Turn, all: nat, weight: real)
    requires Count(t) > 0
    ensures Ratio(all, Count(t)) * weight == all as real * (weight / Count(t) as real)
  {
  }

  lemma {:induction false} RescaledOf(turns: seq<Turn>, len: nat, all: nat, value: TokenValue, i: nat)
    requires i < |turns| && TurnOk(turns[i], len) && turns[i].resp > 0
    ensures RescaledWeight(turns, all, value, len)(i) == all as real * ValueOf(turns, value)(i)
  {
    CountIsResponse(turns[i], len);
    RescaledIsValue(turns[i], all, WeightTo(turns[i], value, len));
  }

  /** Every member of c is a turn with a response. */
  ghost predicate MembersRespond(turns: seq<Turn>, len: nat, c: seq<nat>) {
    forall j :: 0 <= j < |c| ==> c[j] < |turns| && TurnOk(turns[c[j]], len) && turns[c[j]].resp > 0
  }

  /** The members' rescaled weights add up to the number of all response tokens times the sum of their values. */
  lemma {:induction false} RescaledSum(turns: seq<Turn>, len: nat, all: nat, c: seq<nat>, value: TokenValue)
    requires MembersRespond(turns, len, c)
    ensures SumOver(RescaledWeight(turns, all, value, len), c) == all as real * SumOver(ValueOf(turns, value), c)
  {
    RescaledSumOf(turns, len, all, c, value, all as real, ValueOf(turns, value),
      RescaledWeight(turns, all, value, len));
  }

  lemma {:induction false} RescaledSumOf(turns: seq<Turn>, len: nat, all: nat, c: seq<nat>, value: TokenValue,
        a: real, f: nat -> real, g: nat -> real)
    requires MembersRespond(turns, len, c)
    requires a == all as real && f == ValueOf(turns, value) && g == RescaledWeight(turns, all, value, len)
    ensures SumOver(g, c) == a * SumOver(f, c)
  {
    RescaledAll(turns, len, all, c, value, a, f, g);
    SumOverScaled(f, g, a, c);
  }

  lemma {:induction false} RescaledAll(turns: seq<Turn>, len: nat, all: nat, c: seq<nat>, value: TokenValue, a: real,
        f: nat -> real, g: nat -> real)
    requires MembersRespond(turns, len, c)
    requires a == all as real && f == ValueOf(turns, value) && g == RescaledWeight(turns, all, value, len)
    ensures forall j :: 0 <= j < |c| ==> g(c[j]) == a * f(c[j])
  {
    forall j | 0 <= j < |c| ensures g(c[j]) == a * f(c[j]) {
      RescaledOf(turns, len, all, value, c[j]);
    }
  }

  lemma {:induction false} MergedCount(turns: seq<Turn>, len: nat, c: seq<nat>)
    requires TurnsOk(turns, len) && ChainOk(turns, len, c) && forall j :: 0 <= j < |c| ==> turns[c[j]].resp > 0
    ensures 0 < Count(Merged(turns, len, c)) <= CountAll(turns, c)
    ensures Count(Merged(turns, len, c)) == CountAll(turns, c) <==> ChainApart(turns, c)
  {
    var m := Merged(turns, len, c);
    forall j | 0 <= j < |c| ensures len == |turns[c[j]].mask| {
      assert TurnOk(turns[c[j]], len);
    }
    UnionCount(turns, c, m.mask, len);
    CountAllEnd(turns, c, len);
    ApartIffSingle(turns, len, c);
    var first := turns[c[0]];
    assert TurnOk(first, len) && MaskedAt(turns, c[0], first.prompt) && m.mask[first.prompt];
    CountPositive(m.mask, first.prompt, len);
  }

  lemma {:induction false} CountPositive(mask: seq<bool>, p: nat, n: nat)
    requires p < n <= |mask| && mask[p]
    ensures CountTo(mask, n) > 0
  {
    if p < n - 1 {
      CountPositive(mask, p, n - 1);
    }
  }

  lemma {:induction false} Quotient(all: nat, own: nat, v: real)
    requires 0 < own <= all
    ensures own == all ==> all as real * v / own as real == v
    ensures own < all && v > 0.0 ==> all as real * v / own as real > v
  {
    if own < all && v > 0.0 {
      var q := all as real * v / own as real;
      assert q * own as real == all as real * v;
      assert (all - own) as real * v > 0.0;
      assert (q - v) * own as real > 0.0;
    }
  }

  /** A row that counts all tokens has value v, one that counts fewer has more. */
  ghost predicate KeptOrInflated(m: Turn, value: TokenValue, all: nat, v: real) {
    && (Count(m) == all ==> Value(m, value) == v)
    && (Count(m) < all && v > 0.0 ==> Value(m, value) > v)
  }

  lemma {:induction false} ValueIs(m: Turn, value: TokenValue, all: nat, v: real)
    requires 0 < Count(m) <= all && WeightTo(m, value, |m.mask|) == all as real * v
    ensures KeptOrInflated(m, value, all, v)
  {
    Quotient(all, Count(m), v);
  }

  lemma {:induction false} WeightIsScaledSum(turns: seq<Turn>, len: nat, c: seq<nat>, value: TokenValue, m: Turn,
        all: nat, v: real)
    requires MembersRespond(turns, len, c)
    requires WeightTo(m, value, len) == SumOver(RescaledWeight(turns, all, value, len), c)
    requires |m.mask| == len && 0 < Count(m) <= all && v == SumOver(ValueOf(turns, value), c)
    ensures KeptOrInflated(m, value, all, v)
  {
    RescaledSum(turns, len, all, c, value);
    ValueIs(m, value, all, v);
  }

  /** Folding a disjoint chain keeps the sum of its values; folding an overlapping one inflates it. */
  lemma {:induction false} MergedValue(turns: seq<Turn>, len: nat, c: seq<nat>, value: TokenValue, m: Turn)
    requires TurnsOk(turns, len) && ChainOk(turns, len, c) && forall j :: 0 <= j < |c| ==> turns[c[j]].resp > 0
    requires (ChainApart(turns, c) || value == One()) && m == Merged(turns, len, c)
    ensures var v := SumOver(ValueOf(turns, value), c);
      && (ChainApart(turns, c) ==> Value(m, value) == v)
      && (!ChainApart(turns, c) && v > 0.0 ==> Value(m, value) > v)
  {
    MergedCount(turns, len, c);
    MergedWeight(turns, len, c, value, len);
    assert MembersRespond(turns, len, c);
    WeightIsScaledSum(turns, len, c, value, m, CountAll(turns, c), SumOver(ValueOf(turns, value), c));
  }
}
