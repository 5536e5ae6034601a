/**
 The bounded store of rollout trajectories: at most `maxsize` entries, kept in the order of their
 (priority, sequence number) keys, the smallest key evicted first.

 `Store` and its steps describe the class on values. The store is proved to be a window onto an
 unbounded log that keeps every offered trajectory.
*/
module PriorityStores {
  import opened Sequences
  import opened Outcomes

  /** The pair (minimum version, mean version), ordered lexicographically. */
  datatype Priority = Priority(minVersion: real, meanVersion: real)

  predicate Less(p: Priority, q: Priority) {
    p.minVersion < q.minVersion || (p.minVersion == q.minVersion && p.meanVersion < q.meanVersion)
  }

  datatype Entry<T> = Entry(priority: Priority, number: nat, data: T)

  predicate KeyLess<T>(a: Entry<T>, b: Entry<T>) {
    Less(a.priority, b.priority) || (a.priority == b.priority && a.number < b.number)
  }

  datatype Store<T> = Store(sl: seq<Entry<T>>, next: nat, used: set<nat>, discardedUnused: nat)

  function EmptyStore<T>(): Store<T> {
    Store([], 0, {}, 0)
  }

  // ---------------------------------------------------------------- the steps on values

  /** `SortedList.add`: behind every entry whose key is not larger. */
  function InsertEntry<T>(x: Entry<T>, sl: seq<Entry<T>>): (r: seq<Entry<T>>)
    ensures |r| == |sl| + 1
  {
    if sl == [] then [x]
    else if KeyLess(x, sl[0]) then [x] + sl
    else [sl[0]] + InsertEntry(x, sl[1..])
  }

  function AddStep<T>(st: Store<T>, maxsize: nat, p: Priority, data: T): (Store<T>, bool)
    requires maxsize > 0
  {
    if |st.sl| == maxsize && Less(p, st.sl[0].priority) then
      (st.(discardedUnused := st.discardedUnused + 1), false)
    else
      var sl := InsertEntry(Entry(p, st.next, data), st.sl);
      var st' := st.(sl := sl, next := st.next + 1);
      (if |sl| > maxsize then Evict(st', sl[0].number).(sl := sl[1..]) else st', true)
  }

  /** The bookkeeping for an entry that leaves the store. */
  function Evict<T>(st: Store<T>, number: nat): Store<T> {
    if number in st.used then st.(used := st.used - {number})
    else st.(discardedUnused := st.discardedUnused + 1)
  }

  /** The slice `sl[-n:]`, for every integer n. */
  function Tail<T>(sl: seq<T>, n: int): (r: seq<T>)
    ensures |r| == if n > 0 then Min(n, |sl|) else Max(|sl| + n, 0)
  {
    if n > 0 then LastOf(sl, n)
    else if n == 0 then sl
    else sl[if -n < |sl| then -n else |sl|..]
  }

  function Numbers<T>(sl: seq<Entry<T>>): set<nat> {
    set i | 0 <= i < |sl| :: sl[i].number
  }

  function Reversed<T>(s: seq<T>): (r: seq<T>)
    ensures |r| == |s| && forall i :: 0 <= i < |s| ==> r[i] == s[|s| - 1 - i]
  {
    seq(|s|, i requires 0 <= i < |s| => s[|s| - 1 - i])
  }

  function Payloads<T>(sl: seq<Entry<T>>): (r: seq<T>)
    ensures |r| == |sl| && forall i :: 0 <= i < |sl| ==> r[i] == sl[i].data
  {
    seq(|sl|, i requires 0 <= i < |sl| => sl[i].data)
  }

  function TopStep<T>(st: Store<T>, n: int): (Store<T>, seq<T>) {
    var items := Tail(st.sl, n);
    (st.(used := st.used + Numbers(items)), Reversed(Payloads(items)))
  }

  predicate Below<T>(e: Entry<T>, threshold: real) {
    e.priority.minVersion < threshold
  }

  function RemoveStep<T>(st: Store<T>, threshold: real): Store<T>
    decreases |st.sl|
  {
    if st.sl == [] then st
    else
      var head, rest := st.sl[0], st.(sl := st.sl[1..]);
      if Below(head, threshold) then RemoveStep(Evict(rest, head.number), threshold)
      else
        var st' := RemoveStep(rest, threshold);
        st'.(sl := [head] + st'.sl)
  }

  // ---------------------------------------------------------------- runs and the log

  datatype Op<T> = Add(priority: Priority, data: T) | TopN(n: int) | RemoveBelow(threshold: real)

  function Step<T>(st: Store<T>, maxsize: nat, op: Op<T>): Store<T>
    requires maxsize > 0
  {
    match op
    case Add(p, data) => AddStep(st, maxsize, p, data).0
    case TopN(n) => TopStep(st, n).0
    case RemoveBelow(t) => RemoveStep(st, t)
  }

  function Run<T>(ops: seq<Op<T>>, maxsize: nat): Store<T>
    requires maxsize > 0
  {
    if ops == [] then EmptyStore() else Step(Run(ops[..|ops| - 1], maxsize), maxsize, ops[|ops| - 1])
  }

  datatype Offer<T> = Offer(priority: Priority, data: T)

  function Kept<T>(log: seq<Offer<T>>, threshold: real): seq<Offer<T>> {
    if log == [] then []
    else if log[0].priority.minVersion < threshold then Kept(log[1..], threshold)
    else [log[0]] + Kept(log[1..], threshold)
  }

  /** The log: every offer is appended, and remove-below filters it; nothing is ever evicted. */
  function Log<T>(ops: seq<Op<T>>): seq<Offer<T>> {
    if ops == [] then []
    else
      var log := Log(ops[..|ops| - 1]);
      match ops[|ops| - 1]
      case Add(p, data) => log + [Offer(p, data)]
      case TopN(_) => log
      case RemoveBelow(t) => Kept(log, t)
  }

  function InsertOffer<T>(x: Offer<T>, s: seq<Offer<T>>): (r: seq<Offer<T>>)
    ensures |r| == |s| + 1
  {
    if s == [] then [x]
    else if Less(x.priority, s[0].priority) then [x] + s
    else [s[0]] + InsertOffer(x, s[1..])
  }

  /** The log by priority, equal priorities in order of arrival. */
  function Ranked<T>(log: seq<Offer<T>>): (r: seq<Offer<T>>)
    ensures |r| == |log|
  {
    if log == [] then [] else InsertOffer(log[|log| - 1], Ranked(log[..|log| - 1]))
  }

  function Offers<T>(sl: seq<Entry<T>>): (r: seq<Offer<T>>)
    ensures |r| == |sl| && forall i :: 0 <= i < |sl| ==> r[i] == Offer(sl[i].priority, sl[i].data)
  {
    seq(|sl|, i requires 0 <= i < |sl| => Offer(sl[i].priority, sl[i].data))
  }

  // ---------------------------------------------------------------- what every step keeps

  ghost predicate RankedUp<T>(s: seq<Offer<T>>) {
    forall i, j :: 0 <= i < j < |s| ==> !Less(s[j].priority, s[i].priority)
  }

  ghost predicate Fresh<T>(sl: seq<Entry<T>>, next: nat) {
    forall i :: 0 <= i < |sl| ==> sl[i].number < next
  }

  ghost predicate Valid<T>(st: Store<T>) {
    && Fresh(st.sl, st.next)
    && KeysAscend(st.sl)
    && st.used <= Numbers(st.sl)
  }

  lemma {:induction false} InsertOfferRanked<T>(x: Offer<T>, s: seq<Offer<T>>)
    requires RankedUp(s)
    ensures RankedUp(InsertOffer(x, s))
    ensures forall y :: y in InsertOffer(x, s) ==> y == x || y in s
  {
    if s != [] && !Less(x.priority, s[0].priority) {
      InsertOfferRanked(x, s[1..]);
      var r := InsertOffer(x, s[1..]);
      forall j | 0 <= j < |r| ensures !Less(r[j].priority, s[0].priority) {
        assert r[j] == x || r[j] in s[1..];
      }
    }
  }

  lemma {:induction false} RankedIsRanked<T>(log: seq<Offer<T>>)
    ensures RankedUp(Ranked(log))
  {
    if log != [] {
      RankedIsRanked(log[..|log| - 1]);
      InsertOfferRanked(log[|log| - 1], Ranked(log[..|log| - 1]));
    }
  }

  /** A new entry has the largest number, so only priorities decide where it goes. */
  lemma {:induction false} InsertEntryOffers<T>(x: Entry<T>, sl: seq<Entry<T>>)
    requires Fresh(sl, x.number)
    ensures Offers(InsertEntry(x, sl)) == InsertOffer(Offer(x.priority, x.data), Offers(sl))
  {
    if sl != [] && !KeyLess(x, sl[0]) {
      InsertEntryOffers(x, sl[1..]);
      assert Offers(sl)[1..] == Offers(sl[1..]);
      assert Offers(InsertEntry(x, sl)) == [Offers(sl)[0]] + Offers(InsertEntry(x, sl[1..]));
    } else if sl != [] {
      assert Offers([x] + sl) == [Offer(x.priority, x.data)] + Offers(sl);
    }
  }

  /** An offer that belongs behind the first part leaves that part alone. */
  lemma {:induction false} InsertBehind<T>(x: Offer<T>, a: seq<Offer<T>>, b: seq<Offer<T>>)
    requires RankedUp(a + b) && (a != [] ==> b != []) && (b != [] ==> !Less(x.priority, b[0].priority))
    ensures InsertOffer(x, a + b) == a + InsertOffer(x, b)
  {
    if a == [] {
      assert a + b == b;
    } else {
      assert (a + b)[0] == a[0] && (a + b)[|a|] == b[0];
      assert !Less(b[0].priority, a[0].priority);
      assert (a + b)[1..] == a[1..] + b;
      InsertBehind(x, a[1..], b);
    }
  }

  /** An offer that ranks below the second part leaves that part alone. */
  lemma {:induction false} InsertBefore<T>(x: Offer<T>, a: seq<Offer<T>>, b: seq<Offer<T>>)
    requires b != [] && Less(x.priority, b[0].priority)
    ensures InsertOffer(x, a + b) == InsertOffer(x, a) + b
  {
    if a == [] {
      assert a + b == b;
    } else if !Less(x.priority, a[0].priority) {
      assert (a + b)[1..] == a[1..] + b;
      InsertBefore(x, a[1..], b);
    } else {
      assert [x] + (a + b) == [x] + a + b;
    }
  }

  lemma {:induction false} InsertEntryMembers<T>(x: Entry<T>, sl: seq<Entry<T>>, e: Entry<T>)
    ensures e in InsertEntry(x, sl) <==> e == x || e in sl
  {
    if sl != [] {
      InsertEntryMembers(x, sl[1..], e);
      assert sl == [sl[0]] + sl[1..];
      assert InsertEntry(x, sl) == [x] + sl || InsertEntry(x, sl) == [sl[0]] + InsertEntry(x, sl[1..]);
    }
  }

  ghost predicate KeysAscend<T>(sl: seq<Entry<T>>) {
    forall i, j :: 0 <= i < j < |sl| ==> KeyLess(sl[i], sl[j]) && sl[i].number != sl[j].number
  }

  lemma {:induction false} InsertEntryAscends<T>(x: Entry<T>, sl: seq<Entry<T>>)
    requires Fresh(sl, x.number) && KeysAscend(sl)
    ensures KeysAscend(InsertEntry(x, sl))
  {
    if sl != [] && !KeyLess(x, sl[0]) {
      InsertEntryAscends(x, sl[1..]);
      var r := InsertEntry(x, sl[1..]);
      forall j | 0 <= j < |r| ensures KeyLess(sl[0], r[j]) && sl[0].number != r[j].number {
        InsertEntryMembers(x, sl[1..], r[j]);
        assert r[j] in r;
      }
    }
  }

  lemma {:induction false} NumberMember<T>(sl: seq<Entry<T>>, e: Entry<T>)
    requires e in sl
    ensures e.number in Numbers(sl)
  {
  }

  lemma {:induction false} InsertNumbers<T>(x: Entry<T>, sl: seq<Entry<T>>)
    ensures Numbers(sl) <= Numbers(InsertEntry(x, sl))
  {
    forall k | k in Numbers(sl) ensures k in Numbers(InsertEntry(x, sl)) {
      var i :| 0 <= i < |sl| && sl[i].number == k;
      InsertEntryMembers(x, sl, sl[i]);
      NumberMember(InsertEntry(x, sl), sl[i]);
    }
  }

  lemma {:induction false} EvictFirst<T>(st: Store<T>)
    requires Valid(st) && st.sl != []
    ensures Valid(Evict(st, st.sl[0].number).(sl := st.sl[1..]))
  {
    forall k | k in st.used && k != st.sl[0].number ensures k in Numbers(st.sl[1..]) {
      var i :| 0 <= i < |st.sl| && st.sl[i].number == k;
      assert st.sl[1..][i - 1].number == k;
    }
  }

  lemma {:induction false} AddValid<T>(st: Store<T>, maxsize: nat, p: Priority, data: T)
    requires maxsize > 0 && Valid(st) && |st.sl| <= maxsize
    ensures Valid(AddStep(st, maxsize, p, data).0) && |AddStep(st, maxsize, p, data).0.sl| <= maxsize
  {
    if !(|st.sl| == maxsize && Less(p, st.sl[0].priority)) {
      var x := Entry(p, st.next, data);
      InsertEntryAscends(x, st.sl);
      InsertNumbers(x, st.sl);
      var st' := st.(sl := InsertEntry(x, st.sl), next := st.next + 1);
      forall i | 0 <= i < |st'.sl| ensures st'.sl[i].number < st'.next {
        InsertEntryMembers(x, st.sl, st'.sl[i]);
        assert st'.sl[i] in st'.sl;
      }
      assert Valid(st');
      EvictFirst(st');
    }
  }

  lemma {:induction false} TopValid<T>(st: Store<T>, n: int)
    requires Valid(st)
    ensures Valid(TopStep(st, n).0)
  {
    var items := Tail(st.sl, n);
    var from := |st.sl| - |items|;
    assert items == st.sl[from..];
    forall k | k in Numbers(items) ensures k in Numbers(st.sl) {
      var i :| 0 <= i < |items| && items[i].number == k;
      NumberMember(st.sl, st.sl[from + i]);
    }
  }

  /** Entries that a removal leaves in the store, in order. */
  lemma {:induction false} RemoveKeeps<T>(st: Store<T>, threshold: real)
    ensures Offers(RemoveStep(st, threshold).sl) == Kept(Offers(st.sl), threshold)
    ensures RemoveStep(st, threshold).next == st.next
    ensures RemoveStep(st, threshold).used <= st.used
    decreases |st.sl|
  {
    if st.sl != [] {
      var head, rest := st.sl[0], st.(sl := st.sl[1..]);
      assert Offers(st.sl)[1..] == Offers(rest.sl);
      assert st.sl == [head] + rest.sl;
      if Below(head, threshold) {
        RemoveKeeps(Evict(rest, head.number), threshold);
      } else {
        RemoveKeeps(rest, threshold);
        var kept := RemoveStep(rest, threshold).sl;
        assert Offers([head] + kept) == [Offers(st.sl)[0]] + Offers(kept);
      }
    }
  }

  lemma {:induction false} RemoveMember<T>(st: Store<T>, threshold: real, e: Entry<T>)
    ensures e in RemoveStep(st, threshold).sl <==> e in st.sl && !Below(e, threshold)
    decreases |st.sl|
  {
    if st.sl != [] {
      var head, rest := st.sl[0], st.(sl := st.sl[1..]);
      assert st.sl == [head] + rest.sl;
      RemoveMember(if Below(head, threshold) then Evict(rest, head.number) else rest, threshold, e);
    }
  }

  lemma {:induction false} RemoveUsed<T>(st: Store<T>, threshold: real, k: nat)
    ensures k in RemoveStep(st, threshold).used <==>
      k in st.used && forall e :: e in st.sl && e.number == k ==> !Below(e, threshold)
    decreases |st.sl|
  {
    if st.sl != [] {
      var head, rest := st.sl[0], st.(sl := st.sl[1..]);
      assert st.sl == [head] + rest.sl;
      RemoveUsed(if Below(head, threshold) then Evict(rest, head.number) else rest, threshold, k);
    }
  }

  lemma {:induction false} LaterEntry<T>(sl: seq<Entry<T>>, e: Entry<T>)
    requires KeysAscend(sl) && sl != [] && e in sl[1..]
    ensures KeyLess(sl[0], e) && sl[0].number != e.number
  {
    var i :| 0 <= i < |sl[1..]| && sl[1..][i] == e;
    assert sl[i + 1] == e;
  }

  lemma {:induction false} FreshMember<T>(sl: seq<Entry<T>>, next: nat, e: Entry<T>)
    requires Fresh(sl, next) && e in sl
    ensures e.number < next
  {
  }

  lemma {:induction false} NextUnused<T>(st: Store<T>)
    requires Valid(st)
    ensures st.next !in st.used
  {
    forall k | k in st.used ensures k < st.next {
      var i :| 0 <= i < |st.sl| && st.sl[i].number == k;
    }
  }

  lemma {:induction false} RemoveAscends<T>(st: Store<T>, threshold: real)
    requires KeysAscend(st.sl)
    ensures KeysAscend(RemoveStep(st, threshold).sl)
    decreases |st.sl|
  {
    if st.sl != [] {
      var head, rest := st.sl[0], st.(sl := st.sl[1..]);
      if Below(head, threshold) {
        RemoveAscends(Evict(rest, head.number), threshold);
      } else {
        RemoveAscends(rest, threshold);
        var kept := RemoveStep(rest, threshold).sl;
        forall j | 0 <= j < |kept| ensures KeyLess(head, kept[j]) && head.number != kept[j].number {
          RemoveMember(rest, threshold, kept[j]);
          LaterEntry(st.sl, kept[j]);
        }
      }
    }
  }

  lemma {:induction false} RemoveValid<T>(st: Store<T>, threshold: real)
    requires Valid(st)
    ensures Valid(RemoveStep(st, threshold))
  {
    var st' := RemoveStep(st, threshold);
    RemoveKeeps(st, threshold);
    RemoveAscends(st, threshold);
    forall i | 0 <= i < |st'.sl| ensures st'.sl[i].number < st'.next {
      RemoveMember(st, threshold, st'.sl[i]);
      FreshMember(st.sl, st.next, st'.sl[i]);
    }
    forall k | k in st'.used ensures k in Numbers(st'.sl) {
      RemoveUsed(st, threshold, k);
      var i :| 0 <= i < |st.sl| && st.sl[i].number == k;
      RemoveMember(st, threshold, st.sl[i]);
      NumberMember(st'.sl, st.sl[i]);
    }
  }

  lemma {:induction false} RemoveShrinks<T>(st: Store<T>, threshold: real)
    ensures |RemoveStep(st, threshold).sl| <= |st.sl|
    decreases |st.sl|
  {
    if st.sl != [] {
      var head, rest := st.sl[0], st.(sl := st.sl[1..]);
      RemoveShrinks(if Below(head, threshold) then Evict(rest, head.number) else rest, threshold);
    }
  }

  /** Every reachable store: sorted keys, distinct numbers, bounded size, and no stale used marks. */
  lemma {:induction false} RunValid<T>(ops: seq<Op<T>>, maxsize: nat)
    requires maxsize > 0
    ensures Valid(Run(ops, maxsize)) && |Run(ops, maxsize).sl| <= maxsize
  {
    if ops != [] {
      var st := Run(ops[..|ops| - 1], maxsize);
      RunValid(ops[..|ops| - 1], maxsize);
      match ops[|ops| - 1]
      case Add(p, data) => AddValid(st, maxsize, p, data);
      case TopN(n) => TopValid(st, n);
      case RemoveBelow(t) => RemoveValid(st, t); RemoveShrinks(st, t);
    }
  }

  // ---------------------------------------------------------------- refinement of the log

  lemma {:induction false} KeptNone<T>(s: seq<Offer<T>>, threshold: real)
    requires RankedUp(s) && (s != [] ==> s[0].priority.minVersion >= threshold)
    ensures Kept(s, threshold) == s
  {
    if |s| > 1 {
      assert !Less(s[1].priority, s[0].priority);
      KeptNone(s[1..], threshold);
    }
  }

  /** Filtering commutes with ranked insertion. */
  lemma {:induction false} KeptInsert<T>(x: Offer<T>, s: seq<Offer<T>>, threshold: real)
    requires RankedUp(s)
    ensures Kept(InsertOffer(x, s), threshold) ==
      if x.priority.minVersion < threshold then Kept(s, threshold) else InsertOffer(x, Kept(s, threshold))
  {
    if s != [] {
      if Less(x.priority, s[0].priority) {
        assert ([x] + s)[1..] == s;
        if x.priority.minVersion >= threshold {
          KeptNone(s, threshold);
        }
      } else {
        KeptInsert(x, s[1..], threshold);
        assert ([s[0]] + InsertOffer(x, s[1..]))[1..] == InsertOffer(x, s[1..]);
        if s[0].priority.minVersion >= threshold {
          assert ([s[0]] + Kept(s[1..], threshold))[1..] == Kept(s[1..], threshold);
        }
      }
    }
  }

  lemma {:induction false} KeptPush<T>(log: seq<Offer<T>>, x: Offer<T>, threshold: real)
    ensures Kept(log + [x], threshold) ==
      Kept(log, threshold) + if x.priority.minVersion < threshold then [] else [x]
  {
    if log == [] {
      assert [] + [x] == [x] && [x][1..] == [];
    } else {
      assert (log + [x])[1..] == log[1..] + [x];
      KeptPush(log[1..], x, threshold);
    }
  }

  lemma {:induction false} RankedPush<T>(log: seq<Offer<T>>, x: Offer<T>)
    ensures Ranked(log + [x]) == InsertOffer(x, Ranked(log))
  {
    assert (log + [x])[..|log|] == log;
  }

  lemma {:induction false} RankedKept<T>(log: seq<Offer<T>>, threshold: real)
    ensures Ranked(Kept(log, threshold)) == Kept(Ranked(log), threshold)
  {
    if log != [] {
      var front, x := log[..|log| - 1], log[|log| - 1];
      assert log == front + [x];
      RankedKept(front, threshold);
      RankedIsRanked(front);
      KeptPush(front, x, threshold);
      KeptInsert(x, Ranked(front), threshold);
      if x.priority.minVersion >= threshold {
        RankedPush(Kept(front, threshold), x);
      } else {
        assert Kept(front, threshold) + [] == Kept(front, threshold);
      }
    }
  }

  lemma {:induction false} KeptShorter<T>(s: seq<Offer<T>>, threshold: real)
    ensures |Kept(s, threshold)| <= |s|
  {
    if s != [] {
      KeptShorter(s[1..], threshold);
    }
  }

  /** Filtering a ranked list and taking its last n commute. */
  lemma {:induction false} KeptLast<T>(s: seq<Offer<T>>, n: nat, threshold: real)
    requires RankedUp(s)
    ensures Kept(LastOf(s, n), threshold) == LastOf(Kept(s, threshold), n)
  {
    if |s| <= n {
      KeptShorter(s, threshold);
    } else {
      assert LastOf(s, n) == LastOf(s[1..], n);
      KeptLast(s[1..], n, threshold);
      if s[0].priority.minVersion >= threshold {
        KeptNone(s, threshold);
        assert RankedUp(s[1..]);
        if |s| > 1 {
          assert !Less(s[1].priority, s[0].priority);
        }
        KeptNone(s[1..], threshold);
      }
    }
  }

  /** Offering to the window of the last `maxsize` is windowing the longer list. */
  lemma {:induction false} AddWindow<T>(ranked: seq<Offer<T>>, maxsize: nat, x: Offer<T>)
    requires maxsize > 0 && RankedUp(ranked)
    ensures var window := LastOf(ranked, maxsize);
      LastOf(InsertOffer(x, ranked), maxsize) ==
        if |window| == maxsize && Less(x.priority, window[0].priority) then window
        else LastOf(InsertOffer(x, window), maxsize)
  {
    var window := LastOf(ranked, maxsize);
    var early := ranked[..|ranked| - |window|];
    assert ranked == early + window;
    if window != [] {
      if Less(x.priority, window[0].priority) {
        InsertBefore(x, early, window);
      } else {
        InsertBehind(x, early, window);
      }
    }
  }

  lemma {:induction false} AddStepWindow<T>(st: Store<T>, maxsize: nat, p: Priority, data: T, window: seq<Offer<T>>)
    requires maxsize > 0 && Valid(st) && Offers(st.sl) == window && |window| <= maxsize
    ensures var x := Offer(p, data);
      Offers(AddStep(st, maxsize, p, data).0.sl) ==
        if |window| == maxsize && Less(p, window[0].priority) then window
        else LastOf(InsertOffer(x, window), maxsize)
  {
    InsertEntryOffers(Entry(p, st.next, data), st.sl);
    var sl := InsertEntry(Entry(p, st.next, data), st.sl);
    assert Offers(sl)[1..] == Offers(sl[1..]);
  }

  lemma {:induction false} AddRefines<T>(st: Store<T>, maxsize: nat, p: Priority, data: T, log: seq<Offer<T>>)
    requires maxsize > 0 && Valid(st) && Offers(st.sl) == LastOf(Ranked(log), maxsize)
    ensures Offers(AddStep(st, maxsize, p, data).0.sl) == LastOf(Ranked(log + [Offer(p, data)]), maxsize)
  {
    RankedPush(log, Offer(p, data));
    RankedIsRanked(log);
    AddWindow(Ranked(log), maxsize, Offer(p, data));
    AddStepWindow(st, maxsize, p, data, LastOf(Ranked(log), maxsize));
  }

  /**
   After any run the store holds exactly the `maxsize` highest-ranked offers of the unbounded log,
   in rank order.
  */
  lemma {:induction false} StoreIsWindow<T>(ops: seq<Op<T>>, maxsize: nat)
    requires maxsize > 0
    ensures Offers(Run(ops, maxsize).sl) == LastOf(Ranked(Log(ops)), maxsize)
  {
    if ops != [] {
      var before, log := Run(ops[..|ops| - 1], maxsize), Log(ops[..|ops| - 1]);
      StoreIsWindow(ops[..|ops| - 1], maxsize);
      RunValid(ops[..|ops| - 1], maxsize);
      match ops[|ops| - 1]
      case Add(p, data) => AddRefines(before, maxsize, p, data, log);
      case TopN(n) =>
      case RemoveBelow(t) =>
        RemoveKeeps(before, t);
        RankedIsRanked(log);
        RankedKept(log, t);
        KeptLast(Ranked(log), maxsize, t);
    }
  }

  // ---------------------------------------------------------------- conservation

  /** How many entries carry a used mark. */
  function UsedIn<T>(sl: seq<Entry<T>>, used: set<nat>): nat {
    if sl == [] then 0 else (if sl[0].number in used then 1 else 0) + UsedIn(sl[1..], used)
  }

  function Offered<T>(ops: seq<Op<T>>): nat {
    if ops == [] then 0 else Offered(ops[..|ops| - 1]) + if ops[|ops| - 1].Add? then 1 else 0
  }

  /** How many entries left the store after being handed out by a topn. */
  function LeftUsed<T>(ops: seq<Op<T>>, maxsize: nat): int
    requires maxsize > 0
  {
    if ops == [] then 0
    else
      var before, after := Run(ops[..|ops| - 1], maxsize), Run(ops, maxsize);
      LeftUsed(ops[..|ops| - 1], maxsize) + UsedIn(before.sl, before.used) - UsedIn(after.sl, before.used)
  }

  lemma {:induction false} UnusedNumber<T>(sl: seq<Entry<T>>, used: set<nat>, k: nat)
    requires forall i :: 0 <= i < |sl| ==> sl[i].number != k
    ensures UsedIn(sl, used - {k}) == UsedIn(sl, used)
  {
    if sl != [] {
      UnusedNumber(sl[1..], used, k);
    }
  }

  lemma {:induction false} UsedInInsert<T>(x: Entry<T>, sl: seq<Entry<T>>, used: set<nat>)
    ensures UsedIn(InsertEntry(x, sl), used) == UsedIn(sl, used) + if x.number in used then 1 else 0
  {
    if sl != [] {
      UsedInInsert(x, sl[1..], used);
      assert ([x] + sl)[1..] == sl;
    }
  }

  lemma {:induction false} AddConserves<T>(st: Store<T>, maxsize: nat, p: Priority, data: T)
    requires maxsize > 0 && Valid(st)
    ensures var after := AddStep(st, maxsize, p, data).0;
      |after.sl| + after.discardedUnused + UsedIn(st.sl, st.used) - UsedIn(after.sl, st.used)
        == |st.sl| + st.discardedUnused + 1
  {
    var x := Entry(p, st.next, data);
    UsedInInsert(x, st.sl, st.used);
    NextUnused(st);
  }

  lemma {:induction false} RemoveConserves<T>(st: Store<T>, threshold: real)
    requires KeysAscend(st.sl)
    ensures var after := RemoveStep(st, threshold);
      |after.sl| + after.discardedUnused + UsedIn(st.sl, st.used) - UsedIn(after.sl, st.used)
        == |st.sl| + st.discardedUnused
    decreases |st.sl|
  {
    if st.sl != [] {
      var head, rest := st.sl[0], st.(sl := st.sl[1..]);
      if Below(head, threshold) {
        var next := Evict(rest, head.number);
        RemoveConserves(next, threshold);
        var kept := RemoveStep(next, threshold).sl;
        forall i | 0 <= i < |kept| ensures kept[i].number != head.number {
          RemoveMember(next, threshold, kept[i]);
          LaterEntry(st.sl, kept[i]);
        }
        UnusedNumber(rest.sl, st.used, head.number);
        UnusedNumber(kept, st.used, head.number);
      } else {
        RemoveConserves(rest, threshold);
        var kept := RemoveStep(rest, threshold).sl;
        assert ([head] + kept)[1..] == kept;
      }
    }
  }

  /** Every offer is stored, was discarded unused, or left after use. */
  lemma {:induction false} OffersConserved<T>(ops: seq<Op<T>>, maxsize: nat)
    requires maxsize > 0
    ensures var st := Run(ops, maxsize);
      Offered(ops) == |st.sl| + st.discardedUnused + LeftUsed(ops, maxsize)
  {
    if ops != [] {
      var before := Run(ops[..|ops| - 1], maxsize);
      OffersConserved(ops[..|ops| - 1], maxsize);
      RunValid(ops[..|ops| - 1], maxsize);
      match ops[|ops| - 1]
      case Add(p, data) => AddConserves(before, maxsize, p, data);
      case TopN(n) =>
      case RemoveBelow(t) => RemoveConserves(before, t);
    }
  }

  // ---------------------------------------------------------------- topn

  function OfferData<T>(s: seq<Offer<T>>): (r: seq<T>)
    ensures |r| == |s| && forall i :: 0 <= i < |s| ==> r[i] == s[i].data
  {
    seq(|s|, i requires 0 <= i < |s| => s[i].data)
  }

  lemma {:induction false} LastData<T>(sl: seq<Entry<T>>, n: nat)
    ensures OfferData(LastOf(Offers(sl), n)) == Payloads(LastOf(sl, n))
  {
  }

  /** For n of at least 1, topn hands out the best min(n, maxsize) offers of the log, best first. */
  lemma {:induction false} TopIsBest<T>(ops: seq<Op<T>>, maxsize: nat, n: nat)
    requires maxsize > 0 && n > 0
    ensures TopStep(Run(ops, maxsize), n).1 == Reversed(OfferData(LastOf(Ranked(Log(ops)), Min(n, maxsize))))
  {
    StoreIsWindow(ops, maxsize);
    TopOfWindow(Run(ops, maxsize), Ranked(Log(ops)), maxsize, n);
  }

  lemma {:induction false} TopOfWindow<T>(st: Store<T>, ranked: seq<Offer<T>>, maxsize: nat, n: nat)
    requires n > 0 && Offers(st.sl) == LastOf(ranked, maxsize)
    ensures TopStep(st, n).1 == Reversed(OfferData(LastOf(ranked, Min(n, maxsize))))
  {
    LastData(st.sl, n);
    LastOfLast(ranked, maxsize, n);
  }

  /**
   topn(n) hands out min(max(n, 0), size) trajectories exactly when n is at least 1 or the store
   holds at most -n entries: topn(0) hands out the whole store.
  */
  lemma {:induction false} TopCountExactly<T>(st: Store<T>, n: int)
    ensures |TopStep(st, n).1| == Min(Max(n, 0), |st.sl|) <==> n >= 1 || |st.sl| <= -n
    ensures TopStep(st, 0).1 == Reversed(Payloads(st.sl))
  {
  }

  // ---------------------------------------------------------------- the class

  class PriorityStore<T> {
    const maxsize: nat
    var sl: seq<Entry<T>>
    var next: nat
    var used: set<nat>
    var discardedUnused: nat

    function View(): Store<T>
      reads this
    {
      Store(sl, next, used, discardedUnused)
    }

    ghost predicate Bounded()
      reads this
    {
      Valid(View()) && |sl| <= maxsize
    }

    constructor (maxsize: nat)
      ensures this.maxsize == maxsize && View() == EmptyStore() && Bounded()
    {
      this.maxsize := maxsize;
      sl, next, used, discardedUnused := [], 0, {}, 0;
    }

    /** The bookkeeping for an entry that leaves. */
    method Forget(number: nat)
      modifies this`used, this`discardedUnused
      ensures View() == Evict(old(View()), number)
    {
      if number !in used {
        discardedUnused := discardedUnused + 1;
      } else {
        used := used - {number};
      }
    }

    /** `add`: only a store of size 0 fails. */
    method Add(priority: Priority, data: T) returns (r: Result<bool>)
      requires Bounded()
      modifies this
      ensures Bounded()
      ensures maxsize == 0 ==> r == Err(IndexError) && View() == old(View())
      ensures maxsize > 0 ==>
        && r == Ok(AddStep(old(View()), maxsize, priority, data).1)
        && View() == AddStep(old(View()), maxsize, priority, data).0
    {
      if maxsize > 0 {
        AddValid(View(), maxsize, priority, data);
      }
      if |sl| == maxsize {
        if sl == [] {
          return Err(IndexError);
        }
        if Less(priority, sl[0].priority) {
          discardedUnused := discardedUnused + 1;
          return Ok(false);
        }
      }
      sl := InsertEntry(Entry(priority, next, data), sl);
      next := next + 1;
      if |sl| > maxsize {
        var evicted := sl[0].number;
        sl := sl[1..];
        Forget(evicted);
      }
      r := Ok(true);
    }

    /** `topn`: marks what it hands out as used. */
    method TopN(n: int) returns (r: seq<T>)
      requires Bounded()
      modifies this`used
      ensures Bounded()
      ensures View() == TopStep(old(View()), n).0 && r == TopStep(old(View()), n).1
    {
      TopValid(View(), n);
      var items := Tail(sl, n);
      MarkUsed(items);
      r := Reversed(Payloads(items));
    }

    method MarkUsed(items: seq<Entry<T>>)
      modifies this`used
      ensures used == old(used) + Numbers(items)
    {
      for i := 0 to |items|
        invariant used == old(used) + Numbers(items[..i])
      {
        NumbersPush(items, i);
        used := used + {items[i].number};
      }
      assert items[..|items|] == items;
    }

    /** `remove_below`: drops every entry whose minimum version is below the threshold. */
    method RemoveBelow(threshold: real)
      requires Bounded()
      modifies this
      ensures Bounded()
      ensures View() == RemoveStep(old(View()), threshold)
    {
      RemoveValid(View(), threshold);
      RemoveShrinks(View(), threshold);
      var kept: seq<Entry<T>> := [];
      while sl != []
        invariant next == old(next)
        invariant Prefixed(kept, RemoveStep(View(), threshold)) == RemoveStep(old(View()), threshold)
        decreases |sl|
      {
        var head := sl[0];
        sl := sl[1..];
        if Below(head, threshold) {
          Forget(head.number);
        } else {
          PrefixedPush(kept, head, RemoveStep(View(), threshold));
          kept := kept + [head];
        }
      }
      assert kept + [] == kept;
      sl := kept;
    }
  }

  function Prefixed<T>(kept: seq<Entry<T>>, st: Store<T>): Store<T> {
    st.(sl := kept + st.sl)
  }

  lemma {:induction false} PrefixedPush<T>(kept: seq<Entry<T>>, head: Entry<T>, st: Store<T>)
    ensures Prefixed(kept, Prefixed([head], st)) == Prefixed(kept + [head], st)
  {
    assert kept + ([head] + st.sl) == kept + [head] + st.sl;
  }

  lemma {:induction false} NumbersPush<T>(items: seq<Entry<T>>, i: nat)
    requires i < |items|
    ensures Numbers(items[..i + 1]) == Numbers(items[..i]) + {items[i].number}
  {
    forall k | k in Numbers(items[..i + 1]) ensures k in Numbers(items[..i]) + {items[i].number} {
      var j :| 0 <= j < i + 1 && items[..i + 1][j].number == k;
      if j < i {
        assert items[..i][j].number == k;
      }
    }
    forall k | k in Numbers(items[..i]) ensures k in Numbers(items[..i + 1]) {
      var j :| 0 <= j < i && items[..i][j].number == k;
      assert items[..i + 1][j].number == k;
    }
    assert items[..i + 1][i].number in Numbers(items[..i + 1]);
  }
}
