/**
 What the order of priorities means for the store, in plain version numbers: how the log is ranked,
 that no stored offer is beaten by one that is not, what the returned flag says, and which entries
 carry a used mark.
*/
module PriorityOrders {
  import opened Sequences
  import opened PriorityStores

  /** A lower minimum version, or the same with a lower mean version. */
  predicate Staler(p: Priority, q: Priority) {
    if p.minVersion == q.minVersion then p.meanVersion < q.meanVersion else p.minVersion < q.minVersion
  }

  lemma {:induction false} StalerExactly(p: Priority, q: Priority)
    ensures Less(p, q) <==> Staler(p, q)
  {
  }

  // ---------------------------------------------------------------- the ranking

  lemma {:induction false} InsertOfferMultiset<T>(x: Offer<T>, s: seq<Offer<T>>)
    ensures multiset(InsertOffer(x, s)) == multiset(s) + multiset{x}
  {
    if s != [] && !Less(x.priority, s[0].priority) {
      InsertOfferMultiset(x, s[1..]);
      assert s == [s[0]] + s[1..];
    }
  }

  lemma {:induction false} RankedMultiset<T>(log: seq<Offer<T>>)
    ensures multiset(Ranked(log)) == multiset(log)
  {
    if log != [] {
      RankedMultiset(log[..|log| - 1]);
      InsertOfferMultiset(log[|log| - 1], Ranked(log[..|log| - 1]));
      assert log == log[..|log| - 1] + [log[|log| - 1]];
    }
  }

  /** The offers of one priority, in order. */
  function OfPriority<T>(s: seq<Offer<T>>, p: Priority): seq<Offer<T>> {
    if s == [] then [] else (if s[0].priority == p then [s[0]] else []) + OfPriority(s[1..], p)
  }

  lemma {:induction false} OfPriorityConcat<T>(a: seq<Offer<T>>, b: seq<Offer<T>>, p: Priority)
    ensures OfPriority(a + b, p) == OfPriority(a, p) + OfPriority(b, p)
  {
    if a == [] {
      assert a + b == b;
    } else {
      var rest := a[1..];
      OfPriorityConcat(rest, b, p);
      assert (a + b)[1..] == rest + b && (a + b)[0] == a[0];
    }
  }

  lemma {:induction false} OfPriorityFirst<T>(x: Offer<T>, s: seq<Offer<T>>, p: Priority)
    ensures OfPriority([x] + s, p) == (if x.priority == p then [x] else []) + OfPriority(s, p)
  {
    assert ([x] + s)[1..] == s;
  }

  lemma {:induction false} NoneAbove<T>(s: seq<Offer<T>>, p: Priority)
    requires forall i :: 0 <= i < |s| ==> s[i].priority != p
    ensures OfPriority(s, p) == []
  {
    if s != [] {
      NoneAbove(s[1..], p);
    }
  }

  lemma {:induction false} InsertStable<T>(x: Offer<T>, s: seq<Offer<T>>, p: Priority)
    requires RankedUp(s)
    ensures OfPriority(InsertOffer(x, s), p) == OfPriority(s + [x], p)
  {
    OfPriorityConcat(s, [x], p);
    if s != [] && Less(x.priority, s[0].priority) {
      OfPriorityFirst(x, s, p);
      if x.priority == p {
        NoneAbove(s, p);
      }
    } else if s != [] {
      var rest := s[1..];
      InsertStable(x, rest, p);
      OfPriorityConcat(rest, [x], p);
      OfPriorityFirst(s[0], InsertOffer(x, rest), p);
      OfPriorityFirst(s[0], rest, p);
      assert s == [s[0]] + rest;
    } else {
      assert [x] == s + [x];
    }
  }

  /** Offers of one priority are ranked in the order in which they arrived. */
  lemma {:induction false} RankedStable<T>(log: seq<Offer<T>>, p: Priority)
    ensures OfPriority(Ranked(log), p) == OfPriority(log, p)
  {
    if log != [] {
      var front, last := log[..|log| - 1], log[|log| - 1];
      RankedStable(front, p);
      RankedIsRanked(front);
      InsertStable(last, Ranked(front), p);
      OfPriorityConcat(Ranked(front), [last], p);
      OfPriorityConcat(front, [last], p);
      assert log == front + [last];
    }
  }

  /** The ranking holds the same offers, and versions never fall along it. */
  lemma {:induction false} RankedByVersions<T>(log: seq<Offer<T>>, i: nat, j: nat)
    requires i < j < |log|
    ensures multiset(Ranked(log)) == multiset(log)
    ensures var p, q := Ranked(log)[i].priority, Ranked(log)[j].priority;
      p.minVersion < q.minVersion || (p.minVersion == q.minVersion && p.meanVersion <= q.meanVersion)
  {
    RankedMultiset(log);
    RankedIsRanked(log);
  }

  // ---------------------------------------------------------------- what is stored

  ghost predicate NoneStaler<T>(kept: seq<Offer<T>>, dropped: seq<Offer<T>>) {
    forall x, y :: x in kept && y in dropped ==> !Staler(x.priority, y.priority)
  }

  /** The end of a ranked list is not staler than its front. */
  lemma {:induction false} EndIsFreshest<T>(ranked: seq<Offer<T>>, n: nat)
    requires RankedUp(ranked) && n <= |ranked|
    ensures NoneStaler(ranked[n..], ranked[..n])
  {
    forall x, y | x in ranked[n..] && y in ranked[..n] ensures !Staler(x.priority, y.priority) {
      var i :| 0 <= i < |ranked| - n && ranked[n..][i] == x;
      var j :| 0 <= j < n && ranked[..n][j] == y;
      assert !Less(ranked[n + i].priority, ranked[j].priority);
      StalerExactly(x.priority, y.priority);
    }
  }

  lemma {:induction false} EndOf<T>(ranked: seq<Offer<T>>, maxsize: nat) returns (n: nat)
    ensures n <= |ranked| && LastOf(ranked, maxsize) == ranked[n..]
    ensures multiset(ranked) == multiset(ranked[..n]) + multiset(ranked[n..])
    ensures n > 0 ==> |ranked| - n == maxsize
  {
    n := |ranked| - |LastOf(ranked, maxsize)|;
    assert ranked == ranked[..n] + ranked[n..];
  }

  /** No stored offer is staler than one of the log that is not stored, and offers are only left out of a full store. */
  lemma {:induction false} StoredAreFreshest<T>(ops: seq<Op<T>>, maxsize: nat) returns (dropped: seq<Offer<T>>)
    requires maxsize > 0
    ensures multiset(Log(ops)) == multiset(dropped) + multiset(Offers(Run(ops, maxsize).sl))
    ensures dropped != [] ==> |Run(ops, maxsize).sl| == maxsize
    ensures NoneStaler(Offers(Run(ops, maxsize).sl), dropped)
  {
    var ranked := Ranked(Log(ops));
    StoreIsWindow(ops, maxsize);
    RankedMultiset(Log(ops));
    RankedIsRanked(Log(ops));
    var n := EndOf(ranked, maxsize);
    EndIsFreshest(ranked, n);
    dropped := ranked[..n];
  }

  /** An offer is refused exactly by a full store in which everything is fresher; otherwise it is stored. */
  lemma {:induction false} FlagTells<T>(st: Store<T>, maxsize: nat, p: Priority, data: T)
    requires maxsize > 0 && Valid(st) && |st.sl| <= maxsize
    ensures var after, stored := AddStep(st, maxsize, p, data).0, AddStep(st, maxsize, p, data).1;
      && (!stored <==> |st.sl| == maxsize && forall i :: 0 <= i < |st.sl| ==> Staler(p, st.sl[i].priority))
      && (stored <==> Entry(p, st.next, data) in after.sl)
      && (!stored ==> after.sl == st.sl && after.next == st.next)
  {
    var x := Entry(p, st.next, data);
    if |st.sl| == maxsize {
      forall i | 0 <= i < |st.sl| ensures Less(p, st.sl[0].priority) ==> Staler(p, st.sl[i].priority) {
        assert i > 0 ==> KeyLess(st.sl[0], st.sl[i]);
      }
      StalerExactly(p, st.sl[0].priority);
    }
    InsertEntryMembers(x, st.sl, x);
    if st.sl != [] && !Less(p, st.sl[0].priority) {
      assert InsertEntry(x, st.sl)[0] == st.sl[0];
    }
  }

  // ---------------------------------------------------------------- used marks

  /** Some topn has handed out the entry with this number. */
  function HandedOut<T>(ops: seq<Op<T>>, maxsize: nat, k: nat): bool
    requires maxsize > 0
  {
    if ops == [] then false
    else
      var front, last := ops[..|ops| - 1], ops[|ops| - 1];
      HandedOut(front, maxsize, k) || (last.TopN? && k in Numbers(Tail(Run(front, maxsize).sl, last.n)))
  }

  lemma {:induction false} TailNumbers<T>(sl: seq<Entry<T>>, n: int, k: nat)
    ensures k in Numbers(Tail(sl, n)) ==> k in Numbers(sl)
  {
    var items := Tail(sl, n);
    if k in Numbers(items) {
      var i :| 0 <= i < |items| && items[i].number == k;
      assert items == sl[|sl| - |items|..];
      NumberMember(sl, sl[|sl| - |items| + i]);
    }
  }

  lemma {:induction false} NumbersFresh<T>(st: Store<T>, k: nat)
    requires Fresh(st.sl, st.next) && k in Numbers(st.sl)
    ensures k < st.next
  {
  }

  lemma {:induction false} NextGrows<T>(st: Store<T>, maxsize: nat, op: Op<T>)
    requires maxsize > 0
    ensures st.next <= Step(st, maxsize, op).next
  {
    if op.RemoveBelow? {
      RemoveKeeps(st, op.threshold);
    }
  }

  lemma {:induction false} HandedOutEarlier<T>(ops: seq<Op<T>>, maxsize: nat, k: nat)
    requires maxsize > 0 && HandedOut(ops, maxsize, k)
    ensures k < Run(ops, maxsize).next
  {
    var front, last := ops[..|ops| - 1], ops[|ops| - 1];
    NextGrows(Run(front, maxsize), maxsize, last);
    if HandedOut(front, maxsize, k) {
      HandedOutEarlier(front, maxsize, k);
    } else {
      RunValid(front, maxsize);
      TailNumbers(Run(front, maxsize).sl, last.n, k);
      NumbersFresh(Run(front, maxsize), k);
    }
  }

  lemma {:induction false} EntryOf<T>(sl: seq<Entry<T>>, k: nat) returns (e: Entry<T>)
    requires k in Numbers(sl)
    ensures e in sl && e.number == k
  {
    var i :| 0 <= i < |sl| && sl[i].number == k;
    e := sl[i];
  }

  lemma {:induction false} InsertedNumbers<T>(x: Entry<T>, sl: seq<Entry<T>>, k: nat)
    ensures k in Numbers(InsertEntry(x, sl)) <==> k == x.number || k in Numbers(sl)
  {
    InsertEntryMembers(x, sl, x);
    NumberMember(InsertEntry(x, sl), x);
    if k in Numbers(sl) {
      var e := EntryOf(sl, k);
      InsertEntryMembers(x, sl, e);
      NumberMember(InsertEntry(x, sl), e);
    }
    if k in Numbers(InsertEntry(x, sl)) {
      var e := EntryOf(InsertEntry(x, sl), k);
      InsertEntryMembers(x, sl, e);
      if e != x {
        NumberMember(sl, e);
      }
    }
  }

  lemma {:induction false} RestNumbers<T>(sl: seq<Entry<T>>, k: nat)
    requires sl != [] && KeysAscend(sl)
    ensures k in Numbers(sl[1..]) <==> k in Numbers(sl) && k != sl[0].number
  {
    if k in Numbers(sl[1..]) {
      var i :| 0 <= i < |sl[1..]| && sl[1..][i].number == k;
      NumberMember(sl, sl[i + 1]);
      assert sl[0].number != sl[i + 1].number;
    }
    if k in Numbers(sl) && k != sl[0].number {
      var i :| 0 <= i < |sl| && sl[i].number == k;
      NumberMember(sl[1..], sl[1..][i - 1]);
    }
  }

  lemma {:induction false} AddUsed<T>(st: Store<T>, maxsize: nat, p: Priority, data: T, k: nat)
    requires maxsize > 0 && Valid(st) && |st.sl| <= maxsize
    ensures var after := AddStep(st, maxsize, p, data).0;
      && (k in after.used <==> k in st.used && k in Numbers(after.sl))
      && (k in Numbers(after.sl) ==> k in Numbers(st.sl) || k == st.next)
  {
    var x := Entry(p, st.next, data);
    var sl := InsertEntry(x, st.sl);
    InsertedNumbers(x, st.sl, k);
    InsertEntryAscends(x, st.sl);
    NextUnused(st);
    RestNumbers(sl, k);
  }

  lemma {:induction false} RemoveUsedMarks<T>(st: Store<T>, threshold: real, k: nat)
    requires Valid(st)
    ensures var after := RemoveStep(st, threshold);
      && (k in after.used <==> k in st.used && k in Numbers(after.sl))
      && (k in Numbers(after.sl) ==> k in Numbers(st.sl))
  {
    var after := RemoveStep(st, threshold);
    RemoveUsed(st, threshold, k);
    if k in Numbers(after.sl) {
      var e := EntryOf(after.sl, k);
      RemoveMember(st, threshold, e);
      NumberMember(st.sl, e);
      forall f | f in st.sl && f.number == k ensures f == e {
        SameNumber(st.sl, e, f);
      }
    }
    if k in after.used {
      var e := EntryOf(st.sl, k);
      RemoveMember(st, threshold, e);
      NumberMember(after.sl, e);
    }
  }

  lemma {:induction false} NumbersDiffer<T>(sl: seq<Entry<T>>, i: nat, j: nat)
    requires KeysAscend(sl) && i < |sl| && j < |sl|
    ensures sl[i].number == sl[j].number ==> i == j
  {
  }

  lemma {:induction false} SameNumber<T>(sl: seq<Entry<T>>, e: Entry<T>, f: Entry<T>)
    requires KeysAscend(sl) && e in sl && f in sl && e.number == f.number
    ensures e == f
  {
    var i :| 0 <= i < |sl| && sl[i] == e;
    var j :| 0 <= j < |sl| && sl[j] == f;
    NumbersDiffer(sl, i, j);
  }

  /** The used marks are exactly on the stored entries that some topn has handed out. */
  lemma {:induction false} UsedIsHandedOut<T>(ops: seq<Op<T>>, maxsize: nat, k: nat)
    requires maxsize > 0
    ensures k in Run(ops, maxsize).used <==> k in Numbers(Run(ops, maxsize).sl) && HandedOut(ops, maxsize, k)
  {
    if ops != [] {
      var front, last := ops[..|ops| - 1], ops[|ops| - 1];
      var st := Run(front, maxsize);
      UsedIsHandedOut(front, maxsize, k);
      RunValid(front, maxsize);
      if HandedOut(front, maxsize, k) {
        HandedOutEarlier(front, maxsize, k);
      }
      match last
      case Add(p, data) => AddUsed(st, maxsize, p, data, k);
      case TopN(n) => TailNumbers(st.sl, n, k);
      case RemoveBelow(t) => RemoveUsedMarks(st, t, k);
    }
  }

  /** Removing below a threshold keeps exactly the entries whose minimum version reaches it. */
  lemma {:induction false} RemovedExactly<T>(st: Store<T>, threshold: real, e: Entry<T>)
    ensures e in RemoveStep(st, threshold).sl <==> e in st.sl && e.priority.minVersion >= threshold
  {
    RemoveMember(st, threshold, e);
  }
}
