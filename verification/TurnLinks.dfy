/**
 Which links the pack map holds. In the order of their prompts, every turn of a trajectory is linked to
 the first later turn that continues it and that no earlier turn is linked to; there are no other
 links. So a chain is only left without a continuation when every turn that could continue it already
 continues another one.
*/
module TurnLinks {
  import opened Sequences
  import opened Grouping
  import opened TurnChains

  // ---------------------------------------------------------------- the order of the turns

  /** The turns of a trajectory in the order in which they are tried. */
  function Trials(turns: seq<Turn>, traj: int): (r: seq<nat>)
    ensures forall a :: 0 <= a < |r| ==> r[a] < |turns|
  {
    SortByPrompt(turns, TurnsOf(turns, traj))
  }

  /** By prompt length, and turns of equal prompt by index. */
  ghost predicate TriedBefore(turns: seq<Turn>, x: nat, y: nat) {
    && x < |turns| && y < |turns|
    && (turns[x].prompt < turns[y].prompt || (turns[x].prompt == turns[y].prompt && x < y))
  }

  ghost predicate PairInOrder(turns: seq<Turn>, s: seq<nat>, a: nat, b: nat)
    requires a < |s| && b < |s|
  {
    TriedBefore(turns, s[a], s[b])
  }

  ghost predicate InTrialOrder(turns: seq<Turn>, s: seq<nat>) {
    forall a, b {:trigger PairInOrder(turns, s, a, b)} :: 0 <= a < b < |s| ==> PairInOrder(turns, s, a, b)
  }

  lemma {:induction false} OrderFront(turns: seq<Turn>, s: seq<nat>, n: nat)
    requires InTrialOrder(turns, s) && n <= |s|
    ensures InTrialOrder(turns, s[..n])
  {
    forall a, b | 0 <= a < b < n ensures PairInOrder(turns, s[..n], a, b) {
      assert PairInOrder(turns, s, a, b);
    }
  }

  lemma {:induction false} OrderPush(turns: seq<Turn>, s: seq<nat>, x: nat)
    requires InTrialOrder(turns, s) && forall a :: 0 <= a < |s| ==> TriedBefore(turns, s[a], x)
    ensures InTrialOrder(turns, s + [x])
  {
    forall a, b | 0 <= a < b < |s + [x]| ensures PairInOrder(turns, s + [x], a, b) {
      assert b < |s| ==> PairInOrder(turns, s, a, b);
    }
  }

  lemma {:induction false} BeforeLast(turns: seq<Turn>, s: seq<nat>, a: nat)
    requires InTrialOrder(turns, s) && a < |s| - 1
    ensures TriedBefore(turns, s[a], s[|s| - 1])
  {
    assert PairInOrder(turns, s, a, |s| - 1);
  }

  lemma {:induction false} InsertInOrder(turns: seq<Turn>, sorted: seq<nat>, x: nat)
    requires InTrialOrder(turns, sorted) && x < |turns|
    requires forall a :: 0 <= a < |sorted| ==> sorted[a] < x
    ensures InTrialOrder(turns, InsertByPrompt(turns, sorted, x))
  {
    if sorted != [] {
      var n := |sorted| - 1;
      var front, last := sorted[..n], sorted[n];
      if turns[last].prompt <= turns[x].prompt {
        forall a | 0 <= a < |sorted| ensures TriedBefore(turns, sorted[a], x) {
          if a < n {
            BeforeLast(turns, sorted, a);
          }
        }
        OrderPush(turns, sorted, x);
      } else {
        OrderFront(turns, sorted, n);
        InsertInOrder(turns, front, x);
        InsertByPromptMultiset(turns, front, x);
        var r := InsertByPrompt(turns, front, x);
        forall a | 0 <= a < |r| ensures TriedBefore(turns, r[a], last) {
          InsertedOrOld(front, x, r, a);
          if r[a] != x {
            var c :| 0 <= c < n && front[c] == r[a];
            BeforeLast(turns, sorted, c);
          }
        }
        OrderPush(turns, r, last);
      }
    }
  }

  ghost predicate Rising(s: seq<nat>) {
    forall a, b :: 0 <= a < b < |s| ==> s[a] < s[b]
  }

  lemma {:induction false} SortInOrder(turns: seq<Turn>, idxes: seq<nat>)
    requires Rising(idxes) && forall a :: 0 <= a < |idxes| ==> idxes[a] < |turns|
    ensures InTrialOrder(turns, SortByPrompt(turns, idxes))
    ensures multiset(SortByPrompt(turns, idxes)) == multiset(idxes)
  {
    SortByPromptOk(turns, idxes);
    if idxes != [] {
      var front, last := idxes[..|idxes| - 1], idxes[|idxes| - 1];
      SortInOrder(turns, front);
      var sorted := SortByPrompt(turns, front);
      forall a | 0 <= a < |sorted| ensures sorted[a] < last {
        assert sorted[a] in multiset(sorted);
        assert sorted[a] in front;
      }
      InsertInOrder(turns, sorted, last);
    }
  }

  lemma {:induction false} MembersRise(keys: seq<int>, idxes: seq<nat>, k: int)
    requires Rising(idxes) && forall a :: 0 <= a < |idxes| ==> idxes[a] < |keys|
    ensures Rising(Members(keys, idxes, k)) && forall i :: i in Members(keys, idxes, k) ==> i in idxes
  {
    if idxes != [] {
      var front, last := idxes[..|idxes| - 1], idxes[|idxes| - 1];
      MembersRise(keys, front, k);
      var r := Members(keys, front, k);
      forall a | 0 <= a < |r| ensures r[a] < last {
        assert r[a] in r && r[a] in front;
      }
    }
  }

  /** The trials are exactly the trajectory's turns, by prompt length and then by index. */
  lemma {:induction false} TrialsInOrder(turns: seq<Turn>, traj: int)
    ensures InTrialOrder(turns, Trials(turns, traj)) && Once(Trials(turns, traj))
    ensures forall z: nat :: z in Trials(turns, traj) <==> z < |turns| && turns[z].traj == traj
  {
    MembersRise(TrajNumbers(turns), Range(|turns|), traj);
    SortInOrder(turns, TurnsOf(turns, traj));
    TurnsOfOnce(turns, traj);
    OnceSame(TurnsOf(turns, traj), Trials(turns, traj));
    forall z: nat ensures z in Trials(turns, traj) <==> z < |turns| && turns[z].traj == traj {
      assert z in Trials(turns, traj) <==> z in multiset(Trials(turns, traj));
      TurnsOfMember(turns, traj, z);
    }
  }

  // ---------------------------------------------------------------- links of chains

  /** y stands directly behind x in the chain. */
  ghost predicate NextIn(c: seq<nat>, x: nat, y: nat) {
    exists j {:trigger c[j]} :: 0 <= j < |c| - 1 && c[j] == x && c[j + 1] == y
  }

  ghost predicate Linked(chains: seq<seq<nat>>, x: nat, y: nat) {
    exists a :: 0 <= a < |chains| && NextIn(chains[a], x, y)
  }

  lemma {:induction false} NextPushed(c: seq<nat>, right: nat, x: nat, y: nat)
    requires c != []
    ensures NextIn(c + [right], x, y) <==> NextIn(c, x, y) || (x == c[|c| - 1] && y == right)
  {
    var longer := c + [right];
    if NextIn(longer, x, y) {
      var j :| 0 <= j < |longer| - 1 && longer[j] == x && longer[j + 1] == y;
      assert j < |c| - 1 ==> c[j] == x && c[j + 1] == y;
    }
    if NextIn(c, x, y) {
      var j :| 0 <= j < |c| - 1 && c[j] == x && c[j + 1] == y;
      assert longer[j] == x && longer[j + 1] == y;
    }
    assert longer[|c| - 1] == c[|c| - 1] && longer[|c|] == right;
  }

  lemma {:induction false} LinkedPushed(chains: seq<seq<nat>>, c: seq<nat>, x: nat, y: nat)
    ensures Linked(chains + [c], x, y) <==> Linked(chains, x, y) || NextIn(c, x, y)
  {
    var longer := chains + [c];
    if Linked(chains, x, y) {
      var a :| 0 <= a < |chains| && NextIn(chains[a], x, y);
      assert longer[a] == chains[a];
    }
    assert longer[|chains|] == c;
  }

  lemma {:induction false} LinkedRemoved(chains: seq<seq<nat>>, i: nat, x: nat, y: nat)
    requires i < |chains|
    ensures Linked(chains, x, y) <==> Linked(RemoveAt(chains, i), x, y) || NextIn(chains[i], x, y)
  {
    var rest := RemoveAt(chains, i);
    if Linked(chains, x, y) {
      var a :| 0 <= a < |chains| && NextIn(chains[a], x, y);
      assert a < i ==> rest[a] == chains[a];
      assert a > i ==> rest[a - 1] == chains[a];
    }
    if Linked(rest, x, y) {
      var a :| 0 <= a < |rest| && NextIn(rest[a], x, y);
      assert rest[a] == chains[if a < i then a else a + 1];
    }
  }

  /** Extending adds one link and keeps the others. */
  lemma {:induction false} ExtendLinks(chains: seq<seq<nat>>, left: nat, right: nat, x: nat, y: nat)
    ensures Linked(Extend(chains, left, right), x, y) <==> Linked(chains, x, y) || (x == left && y == right)
  {
    var a := ChainEnding(chains, left);
    if a < |chains| {
      LinkedRemoved(chains, a, x, y);
      LinkedPushed(RemoveAt(chains, a), chains[a] + [right], x, y);
      NextPushed(chains[a], right, x, y);
    } else {
      var one: seq<nat> := [left];
      LinkedPushed(chains, [left, right], x, y);
      NextPushed(one, right, x, y);
      assert one + [right] == [left, right];
    }
  }

  // ---------------------------------------------------------------- the links of one trajectory

  ghost predicate TrialsOk(turns: seq<Turn>, len: nat, idxes: seq<nat>) {
    TurnsOk(turns, len) && forall a :: 0 <= a < |idxes| ==> idxes[a] < |turns|
  }

  /** The trial that trial p is linked to, or the number of trials. */
  ghost function Pick(turns: seq<Turn>, len: nat, idxes: seq<nat>, s: Links, p: nat): (q: nat)
    requires TrialsOk(turns, len, idxes) && p < |idxes|
    ensures p < q <= |idxes|
  {
    FirstRight(turns, len, idxes, idxes[p], p + 1, LinkTraj(turns, len, idxes, p, s).passed)
  }

  /** Trial p links turn x to turn y. */
  ghost predicate Picks(turns: seq<Turn>, len: nat, idxes: seq<nat>, s: Links, p: nat, x: nat, y: nat)
    requires TrialsOk(turns, len, idxes) && p < |idxes|
  {
    var q := Pick(turns, len, idxes, s, p);
    x == idxes[p] && q < |idxes| && y == idxes[q]
  }

  /** One of the first n trials links x to y. */
  ghost predicate Picked(turns: seq<Turn>, len: nat, idxes: seq<nat>, s: Links, n: nat, x: nat, y: nat)
    requires TrialsOk(turns, len, idxes) && n <= |idxes|
  {
    n > 0 && (Picked(turns, len, idxes, s, n - 1, x, y) || Picks(turns, len, idxes, s, n - 1, x, y))
  }

  /** One of the first n trials is linked to y. */
  ghost predicate Taken(turns: seq<Turn>, len: nat, idxes: seq<nat>, s: Links, n: nat, y: nat)
    requires TrialsOk(turns, len, idxes) && n <= |idxes|
  {
    n > 0 && (Taken(turns, len, idxes, s, n - 1, y) || Picks(turns, len, idxes, s, n - 1, idxes[n - 1], y))
  }

  lemma {:induction false} PickedBy(turns: seq<Turn>, len: nat, idxes: seq<nat>, s: Links, n: nat, x: nat, y: nat)
      returns (p: nat)
    requires TrialsOk(turns, len, idxes) && n <= |idxes| && Picked(turns, len, idxes, s, n, x, y)
    ensures p < n && Picks(turns, len, idxes, s, p, x, y)
  {
    if Picked(turns, len, idxes, s, n - 1, x, y) {
      p := PickedBy(turns, len, idxes, s, n - 1, x, y);
    } else {
      p := n - 1;
    }
  }

  lemma {:induction false} TakenBy(turns: seq<Turn>, len: nat, idxes: seq<nat>, s: Links, n: nat, y: nat)
      returns (p: nat)
    requires TrialsOk(turns, len, idxes) && n <= |idxes| && Taken(turns, len, idxes, s, n, y)
    ensures p < n && Picks(turns, len, idxes, s, p, idxes[p], y)
  {
    if Taken(turns, len, idxes, s, n - 1, y) {
      p := TakenBy(turns, len, idxes, s, n - 1, y);
    } else {
      p := n - 1;
    }
  }

  lemma {:induction false} PicksCount(turns: seq<Turn>, len: nat, idxes: seq<nat>, s: Links, p: nat, n: nat, y: nat)
    requires TrialsOk(turns, len, idxes) && p < n <= |idxes| && Picks(turns, len, idxes, s, p, idxes[p], y)
    ensures Picked(turns, len, idxes, s, n, idxes[p], y) && Taken(turns, len, idxes, s, n, y)
  {
    if p < n - 1 {
      PicksCount(turns, len, idxes, s, p, n - 1, y);
    }
  }

  /** The links tell of x and y what was known before, and the picks since. */
  ghost predicate Tells(links: Links, s: Links, picked: bool, taken: bool, x: nat, y: nat) {
    && (Linked(links.chains, x, y) <==> Linked(s.chains, x, y) || picked)
    && (y in links.passed <==> y in s.passed || taken)
  }

  lemma {:induction false} OneTrial(turns: seq<Turn>, len: nat, idxes: seq<nat>, s: Links, n: nat, x: nat, y: nat,
        before: Links)
    requires TrialsOk(turns, len, idxes) && 0 < n <= |idxes| && before == LinkTraj(turns, len, idxes, n - 1, s)
    requires Tells(before, s, Picked(turns, len, idxes, s, n - 1, x, y), Taken(turns, len, idxes, s, n - 1, y), x, y)
    ensures Tells(LinkTraj(turns, len, idxes, n, s), s,
      Picked(turns, len, idxes, s, n, x, y), Taken(turns, len, idxes, s, n, y), x, y)
  {
    var q := Pick(turns, len, idxes, s, n - 1);
    if q < |idxes| {
      ExtendLinks(before.chains, idxes[n - 1], idxes[q], x, y);
    }
  }

  lemma {:induction false} LinksTell(turns: seq<Turn>, len: nat, idxes: seq<nat>, n: nat, s: Links, x: nat, y: nat)
    requires TrialsOk(turns, len, idxes) && n <= |idxes|
    ensures Tells(LinkTraj(turns, len, idxes, n, s), s,
      Picked(turns, len, idxes, s, n, x, y), Taken(turns, len, idxes, s, n, y), x, y)
  {
    if n > 0 {
      LinksTell(turns, len, idxes, n - 1, s, x, y);
      OneTrial(turns, len, idxes, s, n, x, y, LinkTraj(turns, len, idxes, n - 1, s));
    }
  }

  lemma {:induction false} LinksPicked(turns: seq<Turn>, len: nat, idxes: seq<nat>, n: nat, s: Links, x: nat, y: nat)
    requires TrialsOk(turns, len, idxes) && n <= |idxes|
    ensures Linked(LinkTraj(turns, len, idxes, n, s).chains, x, y)
      <==> Linked(s.chains, x, y) || Picked(turns, len, idxes, s, n, x, y)
    ensures y in LinkTraj(turns, len, idxes, n, s).passed <==> y in s.passed || Taken(turns, len, idxes, s, n, y)
  {
    LinksTell(turns, len, idxes, n, s, x, y);
  }

  // ---------------------------------------------------------------- the law of one trajectory

  /** No turn of the list is linked or passed yet. */
  ghost predicate Untouched(s: Links, idxes: seq<nat>) {
    && (forall y: nat :: y in idxes ==> y !in s.passed)
    && forall x: nat, y: nat :: Linked(s.chains, x, y) ==> x !in idxes && y !in idxes
  }

  /** A trial earlier than p is linked to trial q. */
  ghost predicate Claimed(chains: seq<seq<nat>>, idxes: seq<nat>, p: nat, q: nat)
    requires p <= |idxes| && q < |idxes|
  {
    exists p': nat :: p' < p && Linked(chains, idxes[p'], idxes[q])
  }

  /** Trial q has the tokens of trial p in front, and their responses share at most one position. */
  ghost predicate CanContinue(turns: seq<Turn>, len: nat, idxes: seq<nat>, p: nat, q: nat)
    requires TrialsOk(turns, len, idxes) && p < |idxes| && q < |idxes|
  {
    assert TurnOk(turns[idxes[p]], len) && TurnOk(turns[idxes[q]], len);
    Compatible(turns[idxes[p]], turns[idxes[q]])
  }

  /** Trial q can continue trial p and no earlier trial is linked to it. */
  ghost predicate Free(turns: seq<Turn>, len: nat, chains: seq<seq<nat>>, idxes: seq<nat>, p: nat, q: nat)
    requires TrialsOk(turns, len, idxes) && p < |idxes| && q < |idxes|
  {
    CanContinue(turns, len, idxes, p, q) && !Claimed(chains, idxes, p, q)
  }

  /** Trial q is the first after p that is free. */
  ghost predicate FirstFree(turns: seq<Turn>, len: nat, chains: seq<seq<nat>>, idxes: seq<nat>, p: nat, q: nat)
    requires TrialsOk(turns, len, idxes) && p < |idxes| && q < |idxes|
  {
    && p < q && Free(turns, len, chains, idxes, p, q)
    && forall m: nat :: p < m < q ==> !Free(turns, len, chains, idxes, p, m)
  }

  /** Among untouched trials the links are exactly the picks. */
  lemma {:induction false} LinkIsPick(turns: seq<Turn>, len: nat, idxes: seq<nat>, n: nat, s: Links, p: nat, q: nat)
    requires TrialsOk(turns, len, idxes) && Once(idxes) && Untouched(s, idxes)
    requires n <= |idxes| && p < |idxes| && q < |idxes|
    ensures Linked(LinkTraj(turns, len, idxes, n, s).chains, idxes[p], idxes[q])
      <==> p < n && Pick(turns, len, idxes, s, p) == q
  {
    LinksPicked(turns, len, idxes, n, s, idxes[p], idxes[q]);
    assert idxes[p] in idxes && idxes[q] in idxes;
    if Picked(turns, len, idxes, s, n, idxes[p], idxes[q]) {
      var p' := PickedBy(turns, len, idxes, s, n, idxes[p], idxes[q]);
      SamePosition(idxes, p, p');
      SamePosition(idxes, q, Pick(turns, len, idxes, s, p'));
    }
    if p < n && Pick(turns, len, idxes, s, p) == q {
      PicksCount(turns, len, idxes, s, p, n, idxes[q]);
    }
  }

  lemma {:induction false} SamePosition(s: seq<nat>, a: nat, b: nat)
    requires Once(s) && a < |s| && b < |s| && s[a] == s[b]
    ensures a == b
  {
    if a < b {
      OnceApart(s, a, b);
    } else if b < a {
      OnceApart(s, b, a);
    }
  }

  /** When trial p is linked, the passed trials are those that earlier trials are linked to. */
  lemma {:induction false} PassedIsClaimed(turns: seq<Turn>, len: nat, idxes: seq<nat>, s: Links, p: nat, q: nat)
    requires TrialsOk(turns, len, idxes) && Once(idxes) && Untouched(s, idxes) && p <= |idxes| && q < |idxes|
    ensures idxes[q] in LinkTraj(turns, len, idxes, p, s).passed
      <==> Claimed(LinkTraj(turns, len, idxes, |idxes|, s).chains, idxes, p, q)
  {
    var chains := LinkTraj(turns, len, idxes, |idxes|, s).chains;
    LinksPicked(turns, len, idxes, p, s, 0, idxes[q]);
    assert idxes[q] in idxes;
    if Taken(turns, len, idxes, s, p, idxes[q]) {
      var p' := TakenBy(turns, len, idxes, s, p, idxes[q]);
      SamePosition(idxes, q, Pick(turns, len, idxes, s, p'));
      LinkIsPick(turns, len, idxes, |idxes|, s, p', q);
      assert Linked(chains, idxes[p'], idxes[q]);
    }
    if Claimed(chains, idxes, p, q) {
      var p': nat :| p' < p && Linked(chains, idxes[p'], idxes[q]);
      LinkIsPick(turns, len, idxes, |idxes|, s, p', q);
      PicksCount(turns, len, idxes, s, p', p, idxes[q]);
    }
  }

  lemma {:induction false} PickIsFree(turns: seq<Turn>, len: nat, idxes: seq<nat>, s: Links, p: nat, q: nat)
    requires TrialsOk(turns, len, idxes) && Once(idxes) && Untouched(s, idxes) && p < |idxes| && q < |idxes|
    ensures var chains := LinkTraj(turns, len, idxes, |idxes|, s).chains;
      Free(turns, len, chains, idxes, p, q) <==>
      idxes[q] !in LinkTraj(turns, len, idxes, p, s).passed && Compatible(turns[idxes[p]], turns[idxes[q]])
  {
    PassedIsClaimed(turns, len, idxes, s, p, q);
  }

  /** Every trial is linked to the first free one after it, and to no other. */
  lemma {:induction false} TrialLinks(turns: seq<Turn>, len: nat, idxes: seq<nat>, s: Links, p: nat, q: nat)
    requires TrialsOk(turns, len, idxes) && Once(idxes) && Untouched(s, idxes) && p < |idxes| && q < |idxes|
    ensures var chains := LinkTraj(turns, len, idxes, |idxes|, s).chains;
      Linked(chains, idxes[p], idxes[q]) <==> FirstFree(turns, len, chains, idxes, p, q)
  {
    var chains := LinkTraj(turns, len, idxes, |idxes|, s).chains;
    var pick := Pick(turns, len, idxes, s, p);
    LinkIsPick(turns, len, idxes, |idxes|, s, p, q);
    var passed := LinkTraj(turns, len, idxes, p, s).passed;
    forall m: nat | p < m < |idxes|
      ensures Free(turns, len, chains, idxes, p, m) ==
        (idxes[m] !in passed && Compatible(turns[idxes[p]], turns[idxes[m]]))
    {
      PickIsFree(turns, len, idxes, s, p, m);
    }
    if FirstFree(turns, len, chains, idxes, p, q) {
      assert pick <= q;
      assert pick == q;
    }
  }

  // ---------------------------------------------------------------- all trajectories

  ghost predicate Apart(s: seq<nat>, t: seq<nat>) {
    forall x :: x in s ==> x !in t
  }

  lemma {:induction false} PickedListed(turns: seq<Turn>, len: nat, idxes: seq<nat>, s: Links, n: nat, x: nat, y: nat)
    requires TrialsOk(turns, len, idxes) && n <= |idxes|
    ensures Picked(turns, len, idxes, s, n, x, y) ==> x in idxes && y in idxes
    ensures Taken(turns, len, idxes, s, n, y) ==> y in idxes
  {
    if n > 0 {
      PickedListed(turns, len, idxes, s, n - 1, x, y);
    }
  }

  /** Linking one trajectory's turns says nothing about turns of another one. */
  lemma {:induction false} Strangers(turns: seq<Turn>, len: nat, idxes: seq<nat>, s: Links, x: nat, y: nat)
    requires TrialsOk(turns, len, idxes) && (x !in idxes || y !in idxes)
    ensures Linked(LinkTraj(turns, len, idxes, |idxes|, s).chains, x, y) <==> Linked(s.chains, x, y)
    ensures y !in idxes ==> (y in LinkTraj(turns, len, idxes, |idxes|, s).passed <==> y in s.passed)
  {
    LinksPicked(turns, len, idxes, |idxes|, s, x, y);
    PickedListed(turns, len, idxes, s, |idxes|, x, y);
  }

  lemma {:induction false} StaysUntouched(turns: seq<Turn>, len: nat, idxes: seq<nat>, s: Links, others: seq<nat>)
    requires TrialsOk(turns, len, idxes) && Untouched(s, others) && Apart(idxes, others)
    ensures Untouched(LinkTraj(turns, len, idxes, |idxes|, s), others)
  {
    var after := LinkTraj(turns, len, idxes, |idxes|, s);
    forall y: nat | y in others ensures y !in after.passed {
      Strangers(turns, len, idxes, s, 0, y);
    }
    forall x: nat, y: nat | Linked(after.chains, x, y) ensures x !in others && y !in others {
      if x in others || y in others {
        Strangers(turns, len, idxes, s, x, y);
      }
    }
  }

  lemma {:induction false} TrialsApart(turns: seq<Turn>, traj: int, other: int)
    requires traj != other
    ensures Apart(Trials(turns, traj), Trials(turns, other))
  {
    TrialsInOrder(turns, traj);
    TrialsInOrder(turns, other);
  }

  /** The trajectories that are still to come are untouched. */
  lemma {:induction false} LaterUntouched(turns: seq<Turn>, len: nat, trajs: seq<int>, n: nat, m: nat)
    requires TurnsOk(turns, len) && n <= m < |trajs| && Distinct(trajs)
    ensures Untouched(LinkTrajs(turns, len, trajs, n), Trials(turns, trajs[m]))
  {
    if n > 0 {
      LaterUntouched(turns, len, trajs, n - 1, m);
      assert Differ(trajs, n - 1, m);
      TrialsApart(turns, trajs[n - 1], trajs[m]);
      StaysUntouched(turns, len, Trials(turns, trajs[n - 1]), LinkTrajs(turns, len, trajs, n - 1),
        Trials(turns, trajs[m]));
    }
  }

  ghost predicate TellAlike(a: Links, b: Links, x: nat, y: nat) {
    Linked(a.chains, x, y) <==> Linked(b.chains, x, y)
  }

  lemma {:induction false} StaysOnce(turns: seq<Turn>, len: nat, trajs: seq<int>, m: nat, n: nat, x: nat, y: nat,
        before: Links, later: Links)
    requires TurnsOk(turns, len) && m + 1 < n <= |trajs| && Distinct(trajs) && x in Trials(turns, trajs[m])
    requires before == LinkTrajs(turns, len, trajs, n - 1) && TellAlike(before, later, x, y)
    ensures TellAlike(LinkTrajs(turns, len, trajs, n), later, x, y)
  {
    assert Differ(trajs, m, n - 1);
    TrialsApart(turns, trajs[m], trajs[n - 1]);
    Strangers(turns, len, Trials(turns, trajs[n - 1]), before, x, y);
  }

  /** What later trajectories do leaves the links of this one alone. */
  lemma {:induction false} LinksStay(turns: seq<Turn>, len: nat, trajs: seq<int>, m: nat, n: nat, x: nat, y: nat)
    requires TurnsOk(turns, len) && m < n <= |trajs| && Distinct(trajs) && x in Trials(turns, trajs[m])
    ensures TellAlike(LinkTrajs(turns, len, trajs, n), LinkTrajs(turns, len, trajs, m + 1), x, y)
  {
    if m + 1 < n {
      LinksStay(turns, len, trajs, m, n - 1, x, y);
      StaysOnce(turns, len, trajs, m, n, x, y, LinkTrajs(turns, len, trajs, n - 1),
        LinkTrajs(turns, len, trajs, m + 1));
    }
  }

  ghost predicate SameLinks(chains: seq<seq<nat>>, other: seq<seq<nat>>, idxes: seq<nat>) {
    forall x, y :: x in idxes && y in idxes ==> (Linked(chains, x, y) <==> Linked(other, x, y))
  }

  lemma {:induction false} SameClaims(chains: seq<seq<nat>>, other: seq<seq<nat>>, idxes: seq<nat>, p: nat, q: nat)
    requires SameLinks(chains, other, idxes) && p <= |idxes| && q < |idxes| && Claimed(chains, idxes, p, q)
    ensures Claimed(other, idxes, p, q)
  {
    var p': nat :| p' < p && Linked(chains, idxes[p'], idxes[q]);
    assert idxes[p'] in idxes && idxes[q] in idxes;
    assert Linked(other, idxes[p'], idxes[q]);
  }

  lemma {:induction false} SameFree(turns: seq<Turn>, len: nat, chains: seq<seq<nat>>, other: seq<seq<nat>>,
        idxes: seq<nat>, p: nat, q: nat)
    requires TrialsOk(turns, len, idxes) && SameLinks(chains, other, idxes) && p < |idxes| && q < |idxes|
    ensures Free(turns, len, chains, idxes, p, q) == Free(turns, len, other, idxes, p, q)
  {
    if Claimed(chains, idxes, p, q) {
      SameClaims(chains, other, idxes, p, q);
    }
    if Claimed(other, idxes, p, q) {
      SameClaims(other, chains, idxes, p, q);
    }
  }

  lemma {:induction false} SameFirst(turns: seq<Turn>, len: nat, chains: seq<seq<nat>>, other: seq<seq<nat>>,
        idxes: seq<nat>, p: nat, q: nat)
    requires TrialsOk(turns, len, idxes) && SameLinks(chains, other, idxes) && p < |idxes| && q < |idxes|
    ensures FirstFree(turns, len, chains, idxes, p, q) == FirstFree(turns, len, other, idxes, p, q)
  {
    forall m: nat | m < |idxes|
      ensures Free(turns, len, chains, idxes, p, m) == Free(turns, len, other, idxes, p, m)
    {
      SameFree(turns, len, chains, other, idxes, p, m);
    }
  }

  lemma {:induction false} LinksOfTrials(turns: seq<Turn>, len: nat, trajs: seq<int>, m: nat, p: nat, q: nat)
    requires TurnsOk(turns, len) && Distinct(trajs) && m < |trajs|
    requires p < |Trials(turns, trajs[m])| && q < |Trials(turns, trajs[m])|
    ensures var idxes, chains := Trials(turns, trajs[m]), LinkTrajs(turns, len, trajs, |trajs|).chains;
      Linked(chains, idxes[p], idxes[q]) <==> FirstFree(turns, len, chains, idxes, p, q)
  {
    var idxes, s := Trials(turns, trajs[m]), LinkTrajs(turns, len, trajs, m);
    var own, chains := LinkTraj(turns, len, idxes, |idxes|, s).chains, LinkTrajs(turns, len, trajs, |trajs|).chains;
    assert own == LinkTrajs(turns, len, trajs, m + 1).chains;
    LaterUntouched(turns, len, trajs, m, m);
    TrialsInOrder(turns, trajs[m]);
    TrialLinks(turns, len, idxes, s, p, q);
    forall x, y | x in idxes && y in idxes ensures Linked(chains, x, y) <==> Linked(own, x, y) {
      LinksStay(turns, len, trajs, m, |trajs|, x, y);
    }
    assert idxes[p] in idxes && idxes[q] in idxes;
    SameFirst(turns, len, chains, own, idxes, p, q);
  }

  lemma {:induction false} TrajListed(turns: seq<Turn>, traj: int) returns (m: nat)
    requires Trials(turns, traj) != []
    ensures m < |Trajs(turns)| && Trajs(turns)[m] == traj
  {
    SortByPromptOk(turns, TurnsOf(turns, traj));
    KeyIff(TrajNumbers(turns), Range(|turns|), traj);
    m :| 0 <= m < |Trajs(turns)| && Trajs(turns)[m] == traj;
  }

  /**
   The links of the pack map: every turn is linked to the first later turn of its trajectory that
   continues it and that no earlier turn is linked to, and to no other.
  */
  lemma {:induction false} LinkedToFirstFree(turns: seq<Turn>, len: nat, traj: int, p: nat, q: nat)
    requires TurnsOk(turns, len) && p < |Trials(turns, traj)| && q < |Trials(turns, traj)|
    ensures var idxes, chains := Trials(turns, traj), ChainsOf(turns, len);
      Linked(chains, idxes[p], idxes[q]) <==> FirstFree(turns, len, chains, idxes, p, q)
  {
    var m := TrajListed(turns, traj);
    KeysDistinct(TrajNumbers(turns), Range(|turns|));
    LinksOfTrials(turns, len, Trajs(turns), m, p, q);
  }

  // ---------------------------------------------------------------- packing packs

  /** The turn continues another one: it stands behind it in some chain. */
  ghost predicate Continues(chains: seq<seq<nat>>, y: nat) {
    exists a, j :: 0 <= a < |chains| && 1 <= j < |chains[a]| && chains[a][j] == y
  }

  lemma {:induction false} LinkedContinues(chains: seq<seq<nat>>, x: nat, y: nat)
    requires Linked(chains, x, y)
    ensures Continues(chains, y) && !NotLeft(chains, x)
  {
    var a :| 0 <= a < |chains| && NextIn(chains[a], x, y);
    var j :| 0 <= j < |chains[a]| - 1 && chains[a][j] == x && chains[a][j + 1] == y;
    assert !OnlyLast(chains[a], x);
  }

  lemma {:induction false} ClaimedContinues(chains: seq<seq<nat>>, idxes: seq<nat>, p: nat, q: nat)
    requires p <= |idxes| && q < |idxes| && Claimed(chains, idxes, p, q)
    ensures Continues(chains, idxes[q])
  {
    var p': nat :| p' < p && Linked(chains, idxes[p'], idxes[q]);
    LinkedContinues(chains, idxes[p'], idxes[q]);
  }

  /** The first free trial up to q, if q is free. */
  lemma {:induction false} SomeFirst(turns: seq<Turn>, len: nat, chains: seq<seq<nat>>, idxes: seq<nat>, p: nat,
        q: nat) returns (m: nat)
    requires TrialsOk(turns, len, idxes) && p < q < |idxes| && Free(turns, len, chains, idxes, p, q)
    ensures m <= q && FirstFree(turns, len, chains, idxes, p, m)
  {
    m := p + 1;
    while !Free(turns, len, chains, idxes, p, m)
      decreases q - m
      invariant p < m <= q
      invariant forall k: nat :: p < k < m ==> !Free(turns, len, chains, idxes, p, k)
    {
      m := m + 1;
    }
  }

  lemma {:induction false} FreeIsLinked(turns: seq<Turn>, len: nat, traj: int, p: nat, q: nat)
    requires TurnsOk(turns, len) && p < q < |Trials(turns, traj)|
    requires Free(turns, len, ChainsOf(turns, len), Trials(turns, traj), p, q)
    ensures !NotLeft(ChainsOf(turns, len), Trials(turns, traj)[p])
  {
    var idxes, chains := Trials(turns, traj), ChainsOf(turns, len);
    var m := SomeFirst(turns, len, chains, idxes, p, q);
    LinkedToFirstFree(turns, len, traj, p, m);
    LinkedContinues(chains, idxes[p], idxes[m]);
  }

  /** A turn is only left without a continuation if every later turn that could continue it continues another one. */
  lemma {:induction false} NothingLeftToLink(turns: seq<Turn>, len: nat, traj: int, p: nat, q: nat)
    requires TurnsOk(turns, len) && p < q < |Trials(turns, traj)|
    requires NotLeft(ChainsOf(turns, len), Trials(turns, traj)[p])
    requires CanContinue(turns, len, Trials(turns, traj), p, q)
    ensures Continues(ChainsOf(turns, len), Trials(turns, traj)[q])
  {
    var idxes, chains := Trials(turns, traj), ChainsOf(turns, len);
    if Claimed(chains, idxes, p, q) {
      ClaimedContinues(chains, idxes, p, q);
    } else {
      FreeIsLinked(turns, len, traj, p, q);
    }
  }

  /** A link goes forward, and a turn it passes over that could continue its left end continues an earlier one. */
  lemma {:induction false} PassesOnlyTaken(turns: seq<Turn>, len: nat, traj: int, p: nat, m: nat, q: nat)
    requires TurnsOk(turns, len) && p < |Trials(turns, traj)| && q < |Trials(turns, traj)|
    requires Linked(ChainsOf(turns, len), Trials(turns, traj)[p], Trials(turns, traj)[q])
    ensures p < q
    ensures p < m < q && CanContinue(turns, len, Trials(turns, traj), p, m) ==>
      && Claimed(ChainsOf(turns, len), Trials(turns, traj), p, m)
      && Continues(ChainsOf(turns, len), Trials(turns, traj)[m])
  {
    var idxes, chains := Trials(turns, traj), ChainsOf(turns, len);
    LinkedToFirstFree(turns, len, traj, p, q);
    if p < m < q && CanContinue(turns, len, idxes, p, m) {
      assert !Free(turns, len, chains, idxes, p, m);
      ClaimedContinues(chains, idxes, p, m);
    }
  }

  /** How many of the first n positions lie in the responses of both turns. */
  lemma {:induction false} CommonCount(left: Turn, right: Turn, len: nat, n: nat)
    requires TurnOk(left, len) && TurnOk(right, len) && n <= len
    ensures CountTo(Both(left.mask, right.mask), n)
      == Max(0, Min(n, Min(End(left), End(right))) - Max(left.prompt, right.prompt))
  {
    if n > 0 {
      CommonCount(left, right, len, n - 1);
    }
  }

  /** A turn can continue another exactly if it repeats its tokens and their responses share at most one position. */
  lemma {:induction false} CompatibleExactly(left: Turn, right: Turn, len: nat)
    requires TurnOk(left, len) && TurnOk(right, len)
    ensures Compatible(left, right) <==>
      && Min(End(left), End(right)) - Max(left.prompt, right.prompt) <= 1
      && forall p :: 0 <= p < End(left) ==> left.ids[p] == right.ids[p]
  {
    CommonCount(left, right, len, len);
    var a, b := left.ids[..End(left)], right.ids[..End(left)];
    if a == b {
      forall p | 0 <= p < End(left) ensures left.ids[p] == right.ids[p] {
        assert a[p] == b[p];
      }
    }
  }
}
