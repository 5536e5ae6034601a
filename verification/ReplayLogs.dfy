/**
 The trajectory replay buffer: an index of all trajectories, a window of the most recent ones to
 sample from, and the slot cache in front of the stored files. A sample id counts through the rows
 of the window; sampling is proved to return exactly those rows, whether a trajectory is found in
 the cache or has to be loaded.
*/
module ReplayLogs {
  import opened Sequences
  import opened Outcomes
  import opened TrajectoryCaches

  // ---------------------------------------------------------------- the rows of a window

  /** How many samples the first n trajectories of the list hold. */
  function SamplesBefore(ids: seq<int>, counts: map<int, nat>, n: nat): nat
    requires n <= |ids| && forall i :: 0 <= i < |ids| ==> ids[i] in counts
  {
    if n == 0 then 0 else SamplesBefore(ids, counts, n - 1) + counts[ids[n - 1]]
  }

  /** The trajectory has all keys, and as many rows per key as samples. */
  ghost predicate InStock<Row>(id: int, counts: map<int, nat>, trajs: map<int, Flat<Row>>, keys: set<Key>) {
    id in counts && id in trajs && trajs[id].Keys == keys && forall k :: k in keys ==> |trajs[id][k]| == counts[id]
  }

  ghost predicate Stocked<Row>(ids: seq<int>, counts: map<int, nat>, trajs: map<int, Flat<Row>>, keys: set<Key>) {
    forall i :: 0 <= i < |ids| ==> InStock(ids[i], counts, trajs, keys)
  }

  /** The rows of the first n trajectories of the list, one after the other. */
  ghost function WindowRows<Row>(ids: seq<int>, counts: map<int, nat>, trajs: map<int, Flat<Row>>, keys: set<Key>,
        k: Key, n: nat): (r: seq<Row>)
    requires n <= |ids| && k in keys && Stocked(ids, counts, trajs, keys)
    ensures |r| == SamplesBefore(ids, counts, n)
  {
    if n == 0 then [] else WindowRows(ids, counts, trajs, keys, k, n - 1) + trajs[ids[n - 1]][k]
  }

  lemma {:induction false} SamplesMonotone(ids: seq<int>, counts: map<int, nat>, a: nat, b: nat)
    requires a <= b <= |ids| && forall i :: 0 <= i < |ids| ==> ids[i] in counts
    ensures SamplesBefore(ids, counts, a) <= SamplesBefore(ids, counts, b)
  {
    if a < b {
      SamplesMonotone(ids, counts, a, b - 1);
    }
  }

  /** The row of a sample id is the local row of the trajectory whose range holds the id. */
  lemma {:induction false} RowOfSample<Row>(ids: seq<int>, counts: map<int, nat>, trajs: map<int, Flat<Row>>,
        keys: set<Key>, k: Key, n: nat, b: nat, local: nat)
    requires b < n <= |ids| && k in keys && Stocked(ids, counts, trajs, keys) && local < counts[ids[b]]
    ensures SamplesBefore(ids, counts, b) + local < SamplesBefore(ids, counts, n)
    ensures WindowRows(ids, counts, trajs, keys, k, n)[SamplesBefore(ids, counts, b) + local] == trajs[ids[b]][k][local]
  {
    var front := WindowRows(ids, counts, trajs, keys, k, n - 1);
    assert WindowRows(ids, counts, trajs, keys, k, n) == front + trajs[ids[n - 1]][k];
    if b < n - 1 {
      RowOfSample(ids, counts, trajs, keys, k, n - 1, b, local);
    }
  }

  /** The cumulative ends of a list of trajectories. */
  function Ends(ids: seq<int>, counts: map<int, nat>): (r: seq<nat>)
    requires forall i :: 0 <= i < |ids| ==> ids[i] in counts
    ensures |r| == |ids| && forall i :: 0 <= i < |ids| ==> r[i] == SamplesBefore(ids, counts, i + 1)
  {
    seq(|ids|, i requires 0 <= i < |ids| => SamplesBefore(ids, counts, i + 1))
  }

  lemma {:induction false} LastEnd(ids: seq<int>, counts: map<int, nat>)
    requires forall i :: 0 <= i < |ids| ==> ids[i] in counts
    ensures SamplesBefore(ids, counts, |ids|) == if ids == [] then 0 else Ends(ids, counts)[|ids| - 1]
  {
  }

  /** `torch.bucketize(sample, ends, right=True)`: the first end above the sample, or one past the last. */
  function Bucket(ends: seq<nat>, sample: nat): (b: nat)
    ensures b <= |ends| && (b < |ends| ==> sample < ends[b])
    ensures forall i :: 0 <= i < b ==> ends[i] <= sample
  {
    if ends == [] || sample < ends[0] then 0 else 1 + Bucket(ends[1..], sample)
  }

  /** `starts[bucket]`: where the trajectory's range begins. */
  function StartOf(ends: seq<nat>, b: nat): nat
    requires b <= |ends|
  {
    if b == 0 then 0 else ends[b - 1]
  }

  lemma {:induction false} BucketInRange(ids: seq<int>, counts: map<int, nat>, sample: nat)
    requires forall i :: 0 <= i < |ids| ==> ids[i] in counts
    requires sample < SamplesBefore(ids, counts, |ids|)
    ensures var b := Bucket(Ends(ids, counts), sample);
      && b < |ids|
      && StartOf(Ends(ids, counts), b) == SamplesBefore(ids, counts, b)
      && 0 <= sample - SamplesBefore(ids, counts, b) < counts[ids[b]]
  {
    var ends := Ends(ids, counts);
    assert ids != [];
    assert ends[|ids| - 1] == SamplesBefore(ids, counts, |ids|);
  }

  /** Sample ids and (trajectory, local row) pairs correspond one to one. */
  lemma {:induction false} BucketInverse(ids: seq<int>, counts: map<int, nat>, b: nat, local: nat)
    requires forall i :: 0 <= i < |ids| ==> ids[i] in counts
    requires b < |ids| && local < counts[ids[b]]
    ensures SamplesBefore(ids, counts, b) + local < SamplesBefore(ids, counts, |ids|)
    ensures Bucket(Ends(ids, counts), SamplesBefore(ids, counts, b) + local) == b
  {
    var sample := SamplesBefore(ids, counts, b) + local;
    var found := Bucket(Ends(ids, counts), sample);
    SamplesMonotone(ids, counts, b + 1, |ids|);
    assert Ends(ids, counts)[b] == SamplesBefore(ids, counts, b + 1);
    if found < b {
      SamplesMonotone(ids, counts, found + 1, b);
    }
  }

  // ---------------------------------------------------------------- the log of trajectories

  /** A trajectory as it is added; without logprobs and rewards it has no sample count and is skipped. */
  datatype Incoming<Row> = Incoming(flat: Flat<Row>, samples: Option<nat>)

  datatype Log<Row> = Log(ids: seq<int>, counts: map<int, nat>, trajs: map<int, Flat<Row>>, next: nat)

  function LogAdd<Row>(log: Log<Row>, t: Incoming<Row>): Log<Row> {
    if t.samples.None? then log
    else Log(log.ids + [log.next], log.counts[log.next := t.samples.value], log.trajs[log.next := t.flat], log.next + 1)
  }

  function LogAddAll<Row>(log: Log<Row>, ts: seq<Incoming<Row>>): Log<Row> {
    if ts == [] then log else LogAdd(LogAddAll(log, ts[..|ts| - 1]), ts[|ts| - 1])
  }

  lemma {:induction false} LogAddNext<Row>(log: Log<Row>, ts: seq<Incoming<Row>>, i: nat)
    requires i < |ts|
    ensures LogAddAll(log, ts[..i + 1]) == LogAdd(LogAddAll(log, ts[..i]), ts[i])
  {
    assert ts[..i + 1][..i] == ts[..i];
  }

  /** How many of the trajectories have samples. */
  function SampledCount<Row>(ts: seq<Incoming<Row>>): nat {
    if ts == [] then 0 else SampledCount(ts[..|ts| - 1]) + if ts[|ts| - 1].samples.Some? then 1 else 0
  }

  /** Every trajectory with samples takes one further id; what was listed before stays. */
  lemma {:induction false} AddedCount<Row>(log: Log<Row>, ts: seq<Incoming<Row>>)
    ensures log.ids <= LogAddAll(log, ts).ids
    ensures |LogAddAll(log, ts).ids| == |log.ids| + SampledCount(ts)
    ensures LogAddAll(log, ts).next == log.next + SampledCount(ts)
    ensures forall id :: id < log.next && id in log.counts ==>
      id in LogAddAll(log, ts).counts && LogAddAll(log, ts).counts[id] == log.counts[id]
    ensures forall id :: id < log.next && id in log.trajs ==>
      id in LogAddAll(log, ts).trajs && LogAddAll(log, ts).trajs[id] == log.trajs[id]
  {
    if ts != [] {
      AddedCount(log, ts[..|ts| - 1]);
    }
  }

  /** Trajectories with samples are listed in the order they come, under consecutive ids, with their rows and counts. */
  lemma {:induction false} AddedInOrder<Row>(log: Log<Row>, ts: seq<Incoming<Row>>, i: nat)
    requires i < |ts| && ts[i].samples.Some?
    ensures var after, n := LogAddAll(log, ts), SampledCount(ts[..i]);
      && |log.ids| + n < |after.ids| && after.ids[|log.ids| + n] == log.next + n
      && log.next + n in after.counts && after.counts[log.next + n] == ts[i].samples.value
      && log.next + n in after.trajs && after.trajs[log.next + n] == ts[i].flat
  {
    var last := |ts| - 1;
    AddedCount(log, ts[..last]);
    if i < last {
      AddedInOrder(log, ts[..last], i);
      assert ts[..last][..i] == ts[..i];
      AddedBefore(ts, i);
    }
  }

  lemma {:induction false} AddedBefore<Row>(ts: seq<Incoming<Row>>, i: nat)
    requires i < |ts| && ts[i].samples.Some?
    ensures SampledCount(ts[..i]) < SampledCount(ts)
  {
    var last := |ts| - 1;
    if i < last {
      AddedBefore(ts[..last], i);
      assert ts[..last][..i] == ts[..i];
    }
  }

  ghost predicate AnySampled<Row>(ts: seq<Incoming<Row>>) {
    exists i :: 0 <= i < |ts| && ts[i].samples.Some?
  }

  lemma {:induction false} SampledNext<Row>(ts: seq<Incoming<Row>>, i: nat)
    requires i < |ts|
    ensures AnySampled(ts[..i + 1]) <==> AnySampled(ts[..i]) || ts[i].samples.Some?
  {
    assert ts[..i + 1] == ts[..i] + [ts[i]];
  }

  ghost predicate Acceptable<Row>(t: Incoming<Row>, keys: set<Key>) {
    t.samples.Some? ==> t.flat.Keys == keys && forall k :: k in keys ==> |t.flat[k]| == t.samples.value
  }

  ghost predicate Less(ids: seq<int>, i: nat, j: nat)
    requires i < |ids| && j < |ids|
  {
    ids[i] < ids[j]
  }

  ghost predicate Ascending(ids: seq<int>, next: nat) {
    && (forall i, j {:trigger Less(ids, i, j)} :: 0 <= i < j < |ids| ==> Less(ids, i, j))
    && (forall i :: 0 <= i < |ids| ==> 0 <= ids[i] < next)
  }

  ghost predicate LogOk<Row>(log: Log<Row>, keys: set<Key>) {
    Ascending(log.ids, log.next) && Stocked(log.ids, log.counts, log.trajs, keys)
  }

  lemma {:induction false} LogAddOk<Row>(log: Log<Row>, t: Incoming<Row>, keys: set<Key>)
    requires LogOk(log, keys) && Acceptable(t, keys)
    ensures LogOk(LogAdd(log, t), keys)
  {
    var ids := LogAdd(log, t).ids;
    forall i: nat, j: nat | i < j < |ids| ensures Less(ids, i, j) {
      assert j < |log.ids| ==> Less(log.ids, i, j);
    }
  }

  lemma {:induction false} SamplesUnchanged(ids: seq<int>, counts: map<int, nat>, more: seq<int>,
        counts': map<int, nat>, n: nat)
    requires n <= |ids| && ids <= more
    requires forall i :: 0 <= i < |ids| ==> ids[i] in counts && ids[i] in counts' && counts'[ids[i]] == counts[ids[i]]
    requires forall i :: 0 <= i < |more| ==> more[i] in counts'
    ensures SamplesBefore(more, counts', n) == SamplesBefore(ids, counts, n)
  {
    if n > 0 {
      SamplesUnchanged(ids, counts, more, counts', n - 1);
      assert more[n - 1] == ids[n - 1];
    }
  }

  lemma {:induction false} LogAddSamples<Row>(log: Log<Row>, t: Incoming<Row>, keys: set<Key>)
    requires LogOk(log, keys) && Acceptable(t, keys) && t.samples.Some?
    ensures LogOk(LogAdd(log, t), keys)
    ensures SamplesBefore(LogAdd(log, t).ids, LogAdd(log, t).counts, |log.ids| + 1)
      == SamplesBefore(log.ids, log.counts, |log.ids|) + t.samples.value
  {
    LogAddOk(log, t, keys);
    SamplesUnchanged(log.ids, log.counts, LogAdd(log, t).ids, LogAdd(log, t).counts, |log.ids|);
  }

  /** Every listed trajectory has been saved. */
  ghost predicate Filed<Row>(log: Log<Row>, files: map<int, Flat<Row>>) {
    forall i :: 0 <= i < |log.ids| ==>
      log.ids[i] in log.trajs && log.ids[i] in files && files[log.ids[i]] == log.trajs[log.ids[i]]
  }

  /** A file of the trajectory, if there is one, holds its rows. */
  ghost predicate SavedRight<Row>(id: int, log: Log<Row>, files: map<int, Flat<Row>>) {
    id in files ==> id in log.trajs && files[id] == log.trajs[id]
  }

  lemma {:induction false} FileAdd<Row>(log: Log<Row>, t: Incoming<Row>, files: map<int, Flat<Row>>)
    requires Ascending(log.ids, log.next) && Filed(log, files)
    ensures Filed(LogAdd(log, t), files[log.next := t.flat])
  {
  }

  /** The index agrees with the log: known rows and counts, their total, and the saved files. */
  ghost predicate IndexOk<Row>(log: Log<Row>, keys: set<Key>, total: nat, autoSave: bool, files: map<int, Flat<Row>>) {
    && LogOk(log, keys) && keys != {}
    && total == SamplesBefore(log.ids, log.counts, |log.ids|)
    && (autoSave ==> Filed(log, files))
  }

  lemma {:induction false} IndexAddOk<Row>(log: Log<Row>, t: Incoming<Row>, keys: set<Key>, total: nat,
        autoSave: bool, files: map<int, Flat<Row>>)
    requires IndexOk(log, keys, total, autoSave, files) && Acceptable(t, keys) && t.samples.Some?
    ensures var filed := if autoSave then files[log.next := t.flat] else files;
      IndexOk(LogAdd(log, t), keys, total + t.samples.value, autoSave, filed)
  {
    LogAddSamples(log, t, keys);
    if autoSave {
      FileAdd(log, t, files);
    }
  }

  /** The cached trajectories are the last `size` of the log, with their logged rows. */
  ghost predicate Mirrors<Row>(f: Fifo<Row>, size: nat, log: Log<Row>) {
    MirrorsList(f, LastOf(log.ids, size), log)
  }

  ghost predicate MirrorsList<Row>(f: Fifo<Row>, order: seq<int>, log: Log<Row>) {
    && f.order == order
    && (forall id :: id in f.vals <==> id in f.order)
    && (forall id :: id in f.vals ==> id in log.trajs && f.vals[id] == log.trajs[id])
  }

  lemma {:induction false} PutMirrors<Row>(f: Fifo<Row>, size: nat, log: Log<Row>, t: Incoming<Row>, keys: set<Key>)
    requires size > 0 && LogOk(log, keys) && Mirrors(f, size, log) && t.samples.Some?
    ensures Mirrors(FifoPut(f, size, log.next, t.flat), size, LogAdd(log, t))
  {
    RecentIds(log.ids, log.next, size);
    RecentAfterPut(f, log.ids, size, log.next, t.flat);
    PutMirrorsValues(f, size, log, t);
  }

  lemma {:induction false} RecentIds(ids: seq<int>, next: nat, size: nat)
    requires Ascending(ids, next)
    ensures Distinct(LastOf(ids, size)) && next !in LastOf(ids, size)
  {
    var recent := LastOf(ids, size);
    var skipped := |ids| - |recent|;
    forall i: nat, j: nat | i < j < |recent| ensures Differ(recent, i, j) {
      assert Less(ids, skipped + i, skipped + j);
    }
  }

  lemma {:induction false} PutMirrorsValues<Row>(f: Fifo<Row>, size: nat, log: Log<Row>, t: Incoming<Row>)
    requires Mirrors(f, size, log) && t.samples.Some? && log.next !in f.vals
    ensures forall id :: id in FifoPut(f, size, log.next, t.flat).vals ==>
      id in LogAdd(log, t).trajs && FifoPut(f, size, log.next, t.flat).vals[id] == LogAdd(log, t).trajs[id]
  {
  }

  lemma {:induction false} EmptyMirrors<Row>(size: nat)
    ensures Mirrors(EmptyFifo<Row>(), size, Log([], map[], map[], 0))
  {
  }

  /** An empty cache after putting the first n listed trajectories from their files. */
  function Reloaded<Row>(ids: seq<int>, files: map<int, Flat<Row>>, size: nat, n: nat): Fifo<Row>
    requires n <= |ids| && forall i :: 0 <= i < n ==> ids[i] in files
  {
    if n == 0 then EmptyFifo() else FifoPut(Reloaded(ids, files, size, n - 1), size, ids[n - 1], files[ids[n - 1]])
  }

  lemma {:induction false} PutListed<Row>(f: Fifo<Row>, order: seq<int>, size: nat, id: int, value: Flat<Row>,
        log: Log<Row>)
    requires MirrorsList(f, order, log) && |order| < size && id !in order && id in log.trajs && value == log.trajs[id]
    ensures MirrorsList(FifoPut(f, size, id, value), order + [id], log)
  {
    assert FifoPut(f, size, id, value) == Fifo(order + [id], f.vals[id := value]);
  }

  ghost predicate FirstSaved<Row>(ids: seq<int>, n: nat, log: Log<Row>, files: map<int, Flat<Row>>)
    requires n <= |ids|
  {
    forall i :: 0 <= i < n ==> ids[i] in files && SavedRight(ids[i], log, files)
  }

  lemma {:induction false} ListedOnce(ids: seq<int>, n: nat)
    requires 0 < n <= |ids| && Distinct(ids)
    ensures ids[..n] == ids[..n - 1] + [ids[n - 1]] && ids[n - 1] !in ids[..n - 1]
  {
    forall j: nat | j < n - 1 ensures ids[j] != ids[n - 1] {
      assert Differ(ids, j, n - 1);
    }
  }

  lemma {:induction false} ReloadedMirrors<Row>(log: Log<Row>, ids: seq<int>, files: map<int, Flat<Row>>, size: nat,
        n: nat)
    requires n <= |ids| <= size && Distinct(ids) && FirstSaved(ids, n, log, files)
    ensures MirrorsList(Reloaded(ids, files, size, n), ids[..n], log)
  {
    if n > 0 {
      ReloadedMirrors(log, ids, files, size, n - 1);
      ListedOnce(ids, n);
      var id := ids[n - 1];
      assert SavedRight(id, log, files);
      PutListed(Reloaded(ids, files, size, n - 1), ids[..n - 1], size, id, files[id], log);
    }
  }

  /** Putting the most recent trajectories into an empty cache makes it hold the last of the log. */
  lemma {:induction false} ReloadMirrors<Row>(log: Log<Row>, keys: set<Key>, files: map<int, Flat<Row>>, size: nat)
    requires LogOk(log, keys)
    requires forall i :: 0 <= i < |log.ids| ==> SavedRight(log.ids[i], log, files)
    requires AllIn(LastOf(log.ids, size), files)
    ensures Mirrors(Reloaded(LastOf(log.ids, size), files, size, |LastOf(log.ids, size)|), size, log)
  {
    var recent := LastOf(log.ids, size);
    RecentIds(log.ids, log.next, size);
    forall i | 0 <= i < |recent| ensures SavedRight(recent[i], log, files) {
      assert recent[i] == log.ids[|log.ids| - |recent| + i];
    }
    ReloadedMirrors(log, recent, files, size, |recent|);
    assert recent[..|recent|] == recent;
  }

  lemma {:induction false} SavedKeys<Row>(log: Log<Row>, keys: set<Key>, files: map<int, Flat<Row>>, size: nat)
    requires LogOk(log, keys)
    requires forall i :: 0 <= i < |log.ids| ==> SavedRight(log.ids[i], log, files)
    ensures var recent := LastOf(log.ids, size);
      forall i :: 0 <= i < |recent| && recent[i] in files ==> files[recent[i]].Keys == keys
  {
    var recent := LastOf(log.ids, size);
    forall i | 0 <= i < |recent| && recent[i] in files ensures files[recent[i]].Keys == keys {
      assert recent[i] == log.ids[|log.ids| - |recent| + i];
    }
  }

  ghost predicate AllIn<Row>(ids: seq<int>, files: map<int, Flat<Row>>) {
    forall i :: 0 <= i < |ids| ==> ids[i] in files
  }

  /** A window no larger than the cache is always cached. */
  lemma {:induction false} WindowIsCached<Row>(f: Fifo<Row>, size: nat, log: Log<Row>, window: nat, i: nat)
    requires Mirrors(f, size, log) && window <= size && i < |LastOf(log.ids, window)|
    ensures LastOf(log.ids, window)[i] in f.vals
  {
    var id := LastOf(log.ids, window)[i];
    assert id == f.order[|f.order| - |LastOf(log.ids, window)| + i];
  }

  // ---------------------------------------------------------------- windows

  /** The cached window metadata, valid for one window size and index version. */
  datatype Window = Window(size: nat, version: nat, ids: seq<int>, ends: seq<nat>)

  method ComputeEnds(ids: seq<int>, counts: map<int, nat>) returns (ends: seq<nat>)
    requires forall i :: 0 <= i < |ids| ==> ids[i] in counts
    ensures ends == Ends(ids, counts)
  {
    ends := [];
    var running: nat := 0;
    for i := 0 to |ids|
      invariant running == SamplesBefore(ids, counts, i)
      invariant ends == Ends(ids, counts)[..i]
    {
      running := running + counts[ids[i]];
      ends := ends + [running];
    }
  }

  lemma {:induction false} RecentStocked<Row>(log: Log<Row>, n: nat, keys: set<Key>)
    requires LogOk(log, keys)
    ensures Stocked(LastOf(log.ids, n), log.counts, log.trajs, keys)
  {
    var recent := LastOf(log.ids, n);
    assert forall i :: 0 <= i < |recent| ==> recent[i] == log.ids[|log.ids| - |recent| + i];
  }

  lemma {:induction false} WindowListed<Row>(log: Log<Row>, n: nat, keys: set<Key>)
    requires LogOk(log, keys)
    ensures Distinct(LastOf(log.ids, n))
    ensures forall i :: 0 <= i < |LastOf(log.ids, n)| ==> LastOf(log.ids, n)[i] in log.ids
  {
    RecentIds(log.ids, log.next, n);
  }

  /** Listed trajectories are stocked, and their files hold what the log says. */
  lemma {:induction false} ListedStocked<Row>(log: Log<Row>, some: seq<int>, keys: set<Key>, files: map<int, Flat<Row>>)
    requires LogOk(log, keys) && Filed(log, files) && forall i :: 0 <= i < |some| ==> some[i] in log.ids
    ensures Stocked(some, log.counts, log.trajs, keys)
    ensures forall i :: 0 <= i < |some| ==> some[i] in files && files[some[i]] == log.trajs[some[i]]
  {
    forall i | 0 <= i < |some|
      ensures InStock(some[i], log.counts, log.trajs, keys) && some[i] in files && files[some[i]] == log.trajs[some[i]]
    {
      assert some[i] in log.ids;
      var q :| 0 <= q < |log.ids| && log.ids[q] == some[i];
      assert InStock(log.ids[q], log.counts, log.trajs, keys);
    }
  }

  /** Whether the cached window metadata is used as it is. */
  predicate IsCurrent(window: Option<Window>, size: nat, version: nat) {
    window.Some? && window.value.size == size && window.value.version == version
  }

  /** The window metadata of a log. */
  ghost function FreshWindow<Row>(log: Log<Row>, keys: set<Key>, size: nat, version: nat): Window
    requires LogOk(log, keys)
  {
    RecentStocked(log, size, keys);
    Window(size, version, LastOf(log.ids, size), Ends(LastOf(log.ids, size), log.counts))
  }

  /** The window metadata that sampling uses. */
  ghost function WindowUsed<Row>(window: Option<Window>, log: Log<Row>, keys: set<Key>, size: nat, version: nat): Window
    requires LogOk(log, keys)
  {
    if IsCurrent(window, size, version) then window.value else FreshWindow(log, keys, size, version)
  }

  /** After an add, no window cached before is used. */
  lemma {:induction false} BumpedIsFresh<Row>(window: Option<Window>, log: Log<Row>, keys: set<Key>, size: nat,
        version: nat)
    requires LogOk(log, keys) && (window.Some? ==> window.value.version < version)
    ensures WindowUsed(window, log, keys, size, version) == FreshWindow(log, keys, size, version)
  {
  }

  lemma {:induction false} SameEnds(ids: seq<int>, a: map<int, nat>, b: map<int, nat>, i: nat)
    requires forall j :: 0 <= j < |ids| ==> ids[j] in a && ids[j] in b
    requires Ends(ids, a) == Ends(ids, b) && i < |ids|
    ensures a[ids[i]] == b[ids[i]]
  {
    assert SamplesBefore(ids, a, i + 1) == SamplesBefore(ids, a, i) + a[ids[i]];
    assert SamplesBefore(ids, b, i + 1) == SamplesBefore(ids, b, i) + b[ids[i]];
    assert Ends(ids, a)[i] == Ends(ids, b)[i];
    if i > 0 {
      assert Ends(ids, a)[i - 1] == Ends(ids, b)[i - 1];
    }
  }

  lemma {:induction false} SameCountsSameSamples(ids: seq<int>, a: map<int, nat>, b: map<int, nat>, n: nat)
    requires n <= |ids| && forall j :: 0 <= j < |ids| ==> ids[j] in a && ids[j] in b && a[ids[j]] == b[ids[j]]
    ensures SamplesBefore(ids, a, n) == SamplesBefore(ids, b, n)
  {
    if n > 0 {
      SameCountsSameSamples(ids, a, b, n - 1);
    }
  }

  /**
   `load_checkpoint` replaces the index without a new version. Sampling then uses the loaded window
   exactly if no window was cached for this size and version, or the loaded log ends in the same
   trajectories with the same sample counts.
   */
  lemma {:induction false} LoadedWindowIsFresh<Row>(window: Option<Window>, before: Log<Row>, after: Log<Row>,
        keys: set<Key>, size: nat, version: nat)
    requires LogOk(before, keys) && LogOk(after, keys)
    requires IsCurrent(window, size, version) ==> window.value == FreshWindow(before, keys, size, version)
    ensures WindowUsed(window, after, keys, size, version) == FreshWindow(after, keys, size, version)
      <==> !IsCurrent(window, size, version)
           || (LastOf(before.ids, size) == LastOf(after.ids, size)
               && forall id :: id in LastOf(after.ids, size) ==>
                    id in before.counts && id in after.counts && before.counts[id] == after.counts[id])
  {
    var was, now := LastOf(before.ids, size), LastOf(after.ids, size);
    RecentStocked(before, size, keys);
    RecentStocked(after, size, keys);
    if IsCurrent(window, size, version) && was == now {
      assert forall j :: 0 <= j < |now| ==>
        InStock(now[j], before.counts, before.trajs, keys) && InStock(now[j], after.counts, after.trajs, keys);
      if Ends(was, before.counts) == Ends(now, after.counts) {
        forall i | 0 <= i < |now| ensures before.counts[now[i]] == after.counts[now[i]] {
          SameEnds(now, before.counts, after.counts, i);
        }
      }
      if forall id :: id in now ==> before.counts[id] == after.counts[id] {
        forall i | 0 <= i < |now| ensures Ends(was, before.counts)[i] == Ends(now, after.counts)[i] {
          SameCountsSameSamples(now, before.counts, after.counts, i + 1);
        }
      }
    }
  }

  /** Sampling, then loading a checkpoint that holds one trajectory more, leaves the old window in use. */
  lemma {:induction false} StaleWindow<Row>(row: Row, key: Key)
    ensures var flat := map[key := [row]];
      var before := Log([0], map[0 := 1], map[0 := flat], 1);
      var after := Log([0, 1], map[0 := 1, 1 := 1], map[0 := flat, 1 := flat], 2);
      && LogOk(before, {key}) && LogOk(after, {key})
      && var window := Some(FreshWindow(before, {key}, 2, 1));
         WindowUsed(window, after, {key}, 2, 1) != FreshWindow(after, {key}, 2, 1)
  {
    var flat := map[key := [row]];
    var before := Log([0], map[0 := 1], map[0 := flat], 1);
    var after := Log([0, 1], map[0 := 1, 1 := 1], map[0 := flat, 1 := flat], 2);
    assert flat.Keys == {key};
    assert FreshWindow(before, {key}, 2, 1).ids == [0] && FreshWindow(after, {key}, 2, 1).ids == [0, 1];
  }

  // ---------------------------------------------------------------- splitting a checkpoint

  function ShareStart(n: nat, rank: nat, ranks: nat): nat
    requires ranks > 0
  {
    rank * (n / ranks) + Min(rank, n % ranks)
  }

  function ShareEnd(n: nat, rank: nat, ranks: nat): nat
    requires ranks > 0
  {
    ShareStart(n, rank, ranks) + n / ranks + if rank < n % ranks then 1 else 0
  }

  lemma {:induction false} ShareArithmetic(n: nat, q: nat, m: nat, rank: nat, ranks: nat)
    requires rank < ranks && n == ranks * q + m && m < ranks
    ensures 0 * q + Min(0, m) == 0 && ranks * q + Min(ranks, m) == n
    ensures rank * q + Min(rank, m) <= rank * q + Min(rank, m) + q + (if rank < m then 1 else 0) <= n
    ensures rank * q + Min(rank, m) + q + (if rank < m then 1 else 0) == (rank + 1) * q + Min(rank + 1, m)
  {
    SuccTimes(rank, q);
    MulMono(rank + 1, ranks, q);
  }

  lemma {:induction false} ShareIs(n: nat, rank: nat, ranks: nat, q: nat, m: nat)
    requires ranks > 0 && q == n / ranks && m == n % ranks
    ensures ShareStart(n, rank, ranks) == rank * q + Min(rank, m)
    ensures ShareEnd(n, rank, ranks) == rank * q + Min(rank, m) + q + if rank < m then 1 else 0
  {
  }

  /** Shares follow one another from 0 to n. */
  lemma {:induction false} SharesMeet(n: nat, rank: nat, ranks: nat)
    requires rank < ranks
    ensures ShareStart(n, 0, ranks) == 0 && ShareStart(n, ranks, ranks) == n
    ensures ShareStart(n, rank, ranks) <= ShareEnd(n, rank, ranks) == ShareStart(n, rank + 1, ranks) <= n
  {
    var q, m := n / ranks, n % ranks;
    ShareIs(n, 0, ranks, q, m);
    ShareIs(n, ranks, ranks, q, m);
    ShareIs(n, rank, ranks, q, m);
    ShareIs(n, rank + 1, ranks, q, m);
    ShareArithmetic(n, q, m, rank, ranks);
  }

  /** The trajectories a rank loads; an invalid rank is refused. */
  method RankIds(all: seq<int>, rank: int, ranks: int) returns (r: Result<seq<int>>)
    ensures (rank < 0 || rank >= ranks) <==> r == Err(ValueError)
    ensures 0 <= rank < ranks ==>
      && ShareStart(|all|, rank, ranks) <= ShareEnd(|all|, rank, ranks) <= |all|
      && r == Ok(all[ShareStart(|all|, rank, ranks)..ShareEnd(|all|, rank, ranks)])
  {
    if rank < 0 || rank >= ranks {
      return Err(ValueError);
    }
    if ranks <= 0 {
      return Err(ValueError);
    }
    SharesMeet(|all|, rank, ranks);
    var perSplit, remainder := |all| / ranks, |all| % ranks;
    var start := rank * perSplit + Min(rank, remainder);
    var end := start + perSplit + (if rank < remainder then 1 else 0);
    r := Ok(all[start..end]);
  }

  ghost function RankShares(all: seq<int>, ranks: nat, upTo: nat): (r: seq<seq<int>>)
    requires upTo <= ranks && ranks > 0
    ensures |r| == upTo
  {
    if upTo == 0 then []
    else
      SharesMeet(|all|, upTo - 1, ranks);
      RankShares(all, ranks, upTo - 1) + [all[ShareStart(|all|, upTo - 1, ranks)..ShareEnd(|all|, upTo - 1, ranks)]]
  }

  /** The ranks' shares in rank order are the whole list. */
  lemma {:induction false} SharesCover(all: seq<int>, ranks: nat, upTo: nat)
    requires upTo <= ranks && ranks > 0
    ensures ShareStart(|all|, upTo, ranks) <= |all|
    ensures Flatten<int>(RankShares(all, ranks, upTo)) == all[..ShareStart(|all|, upTo, ranks)]
    ensures upTo == ranks ==> Flatten<int>(RankShares(all, ranks, upTo)) == all
  {
    if upTo == 0 {
      SharesMeet(|all|, 0, ranks);
    } else {
      SharesCover(all, ranks, upTo - 1);
      SharesMeet(|all|, upTo - 1, ranks);
      var start, end := ShareStart(|all|, upTo - 1, ranks), ShareEnd(|all|, upTo - 1, ranks);
      FlattenPush<int>(RankShares(all, ranks, upTo - 1), all[start..end]);
      assert all[..end] == all[..start] + all[start..end];
    }
  }

  /** No rank loads two trajectories more than another. */
  lemma {:induction false} SharesEven(n: nat, a: nat, b: nat, ranks: nat)
    requires a < ranks && b < ranks
    ensures ShareEnd(n, a, ranks) - ShareStart(n, a, ranks) <= ShareEnd(n, b, ranks) - ShareStart(n, b, ranks) + 1
  {
  }

  /** And no rank loads more than a rank before it. */
  lemma {:induction false} SharesFall(n: nat, a: nat, b: nat, ranks: nat)
    requires a <= b < ranks
    ensures ShareEnd(n, a, ranks) - ShareStart(n, a, ranks) >= ShareEnd(n, b, ranks) - ShareStart(n, b, ranks)
  {
  }

  /** The listed trajectories from `start` to `end` as a log of their own; its counter follows its last id. */
  function ShareOf<Row>(log: Log<Row>, start: nat, end: nat): Log<Row>
    requires start <= end <= |log.ids|
  {
    var ids := log.ids[start..end];
    var counts := map id | id in log.counts && id in ids :: log.counts[id];
    var next := if ids == [] || ids[|ids| - 1] < 0 then 0 else ids[|ids| - 1] + 1;
    Log(ids, counts, log.trajs, next)
  }

  lemma {:induction false} ShareIsLog<Row>(log: Log<Row>, keys: set<Key>, start: nat, end: nat)
    requires start <= end <= |log.ids| && LogOk(log, keys)
    ensures LogOk(ShareOf(log, start, end), keys)
    ensures ShareOf(log, start, end).next > 0 ==> ShareOf(log, start, end).next - 1 in ShareOf(log, start, end).ids
  {
    var share := ShareOf(log, start, end);
    var last := end - 1;
    forall i: nat | i < |share.ids|
      ensures InStock(share.ids[i], share.counts, log.trajs, keys) && 0 <= share.ids[i] < share.next
    {
      var id := share.ids[i];
      assert id == log.ids[start + i] && id in share.ids;
      assert InStock(id, log.counts, log.trajs, keys);
      assert start + i < last ==> Less(log.ids, start + i, last);
    }
    forall i: nat, j: nat | i < j < |share.ids| ensures Less(share.ids, i, j) {
      assert Less(log.ids, start + i, start + j);
    }
  }

  lemma {:induction false} ShareIsSaved<Row>(log: Log<Row>, start: nat, end: nat, files: map<int, Flat<Row>>)
    requires start <= end <= |log.ids| && forall i :: 0 <= i < |log.ids| ==> SavedRight(log.ids[i], log, files)
    ensures forall i :: 0 <= i < |ShareOf(log, start, end).ids| ==>
      SavedRight(ShareOf(log, start, end).ids[i], ShareOf(log, start, end), files)
    ensures Filed(log, files) ==> Filed(ShareOf(log, start, end), files)
  {
    var share := ShareOf(log, start, end);
    forall i | 0 <= i < |share.ids| ensures SavedRight(share.ids[i], share, files) {
      assert SavedRight(log.ids[start + i], log, files);
    }
  }

  /** The samples of all listed trajectories. */
  method SumSamples(ids: seq<int>, counts: map<int, nat>) returns (total: nat)
    requires forall i :: 0 <= i < |ids| ==> ids[i] in counts
    ensures total == SamplesBefore(ids, counts, |ids|)
  {
    total := 0;
    for i := 0 to |ids|
      invariant total == SamplesBefore(ids, counts, i)
    {
      total := total + counts[ids[i]];
    }
  }

  // ---------------------------------------------------------------- draws

  ghost predicate AscendingBelow(s: seq<nat>, n: nat) {
    (forall i, j :: 0 <= i < j < |s| ==> s[i] < s[j]) && (forall i :: 0 <= i < |s| ==> s[i] < n)
  }

  /** `torch.isin`: which of the drawn trajectories are cached. */
  function CachedMask(cache: map<int, nat>, tids: seq<int>): (r: seq<bool>)
    ensures |r| == |tids| && forall j :: 0 <= j < |tids| ==> r[j] == (tids[j] in cache)
  {
    seq(|tids|, j requires 0 <= j < |tids| => tids[j] in cache)
  }

  /** The positions at which the mask has the given value. */
  function Positions(mask: seq<bool>, value: bool, n: nat): (r: seq<nat>)
    requires n <= |mask|
    ensures AscendingBelow(r, n)
    ensures forall j: nat :: j in r <==> j < n && mask[j] == value
  {
    if n == 0 then []
    else
      var r := Positions(mask, value, n - 1);
      if mask[n - 1] == value then r + [n - 1] else r
  }

  /** The ids of the list that the given set names, in list order. */
  function Named(ids: seq<int>, names: set<int>): (r: seq<int>)
    ensures forall id :: id in r <==> id in ids && id in names
  {
    if ids == [] then [] else (if ids[0] in names then [ids[0]] else []) + Named(ids[1..], names)
  }

  lemma {:induction false} NamedDistinct(ids: seq<int>, names: set<int>)
    requires Distinct(ids)
    ensures Distinct(Named(ids, names))
  {
    if ids != [] {
      DistinctTail(ids);
      NamedDistinct(ids[1..], names);
      DistinctCons(ids[0], Named(ids[1..], names));
      assert [] + Named(ids[1..], names) == Named(ids[1..], names);
    }
  }

  /** The trajectories of the draws, and the rows within them. */
  function DrawnIds(w: Window, draws: seq<nat>): (r: seq<int>)
    requires forall j :: 0 <= j < |draws| ==> Bucket(w.ends, draws[j]) < |w.ids|
    ensures |r| == |draws|
    ensures forall j :: 0 <= j < |draws| ==> r[j] == w.ids[Bucket(w.ends, draws[j])]
  {
    seq(|draws|, j requires 0 <= j < |draws| => w.ids[Bucket(w.ends, draws[j])])
  }

  function DrawnRows(w: Window, draws: seq<nat>): (r: seq<nat>)
    ensures |r| == |draws|
    ensures forall j :: 0 <= j < |draws| ==>
      r[j] == draws[j] - StartOf(w.ends, Bucket(w.ends, draws[j]))
  {
    seq<nat>(|draws|, j requires 0 <= j < |draws| => RowInBucket(w.ends, draws[j]))
  }

  function RowInBucket(ends: seq<nat>, draw: nat): (r: nat)
    ensures r == draw - StartOf(ends, Bucket(ends, draw))
  {
    var b := Bucket(ends, draw);
    assert b > 0 ==> ends[b - 1] <= draw;
    draw - StartOf(ends, b)
  }

  /** The draw j asks for the local row of a trajectory with known rows. */
  ghost predicate Drawable<Row>(log: Log<Row>, keys: set<Key>, tid: int, local: nat) {
    tid in log.ids && InStock(tid, log.counts, log.trajs, keys) && local < log.counts[tid]
  }

  lemma {:induction false} StockedDrawable<Row>(log: Log<Row>, keys: set<Key>, tid: int, local: nat)
    requires LogOk(log, keys) && tid in log.ids && tid in log.counts && local < log.counts[tid]
    ensures Drawable(log, keys, tid, local)
  {
    var i :| 0 <= i < |log.ids| && log.ids[i] == tid;
  }

  /** Every draw below the window's total asks for a row of a listed trajectory. */
  lemma {:induction false} DrawsAreDrawable<Row>(log: Log<Row>, keys: set<Key>, windowSize: nat, w: Window,
        draws: seq<nat>)
    requires LogOk(log, keys) && Stocked(w.ids, log.counts, log.trajs, keys) && w.ends == Ends(w.ids, log.counts)
    requires w.ids == LastOf(log.ids, windowSize)
    requires forall j :: 0 <= j < |draws| ==> draws[j] < SamplesBefore(w.ids, log.counts, |w.ids|)
    ensures forall j :: 0 <= j < |draws| ==> Bucket(w.ends, draws[j]) < |w.ids|
    ensures forall j :: 0 <= j < |draws| ==> Drawable(log, keys, DrawnIds(w, draws)[j], DrawnRows(w, draws)[j])
  {
    WindowListed(log, windowSize, keys);
    forall j | 0 <= j < |draws| ensures Bucket(w.ends, draws[j]) < |w.ids| {
      BucketInRange(w.ids, log.counts, draws[j]);
    }
    forall j | 0 <= j < |draws| ensures Drawable(log, keys, DrawnIds(w, draws)[j], DrawnRows(w, draws)[j]) {
      BucketInRange(w.ids, log.counts, draws[j]);
      StockedDrawable(log, keys, DrawnIds(w, draws)[j], DrawnRows(w, draws)[j]);
    }
  }
}
