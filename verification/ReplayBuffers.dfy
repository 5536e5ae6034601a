/**
 The trajectory replay buffer: every trajectory is logged, the most recent ones stay in a slot
 cache, and samples are drawn from a window of recent trajectories. A batch is gathered from the
 flat buffer for cached trajectories and from reloaded, concatenated files for the others; both
 are proved to give exactly the drawn rows of the window.
*/
module ReplayBuffers {
  import opened Sequences
  import opened Outcomes
  import opened TrajectoryCaches
  import opened ReplayLogs

  // ---------------------------------------------------------------- filling a batch

  /** Copies row i of the source into row j of the batch, for every key. */
  function SetColumn<Row>(batch: Flat<Row>, j: nat, src: Flat<Row>, i: nat): (r: Flat<Row>)
    requires batch.Keys == src.Keys
    requires forall k :: k in batch ==> j < |batch[k]| && i < |src[k]|
    ensures r.Keys == batch.Keys
    ensures forall k :: k in batch ==> r[k] == batch[k][j := src[k][i]]
  {
    map k | k in batch :: batch[k][j := src[k][i]]
  }

  ghost predicate Sized<Row>(batch: Flat<Row>, keys: set<Key>, n: nat) {
    batch.Keys == keys && forall k :: k in keys ==> |batch[k]| == n
  }

  /** Row i of the source is row j of the wanted batch, for every key. */
  ghost predicate RowIs<Row>(src: Flat<Row>, i: nat, want: Flat<Row>, j: nat) {
    src.Keys == want.Keys && forall k :: k in want.Keys ==> i < |src[k]| && j < |want[k]| && src[k][i] == want[k][j]
  }

  /** The batch has the wanted rows at the given positions. */
  ghost predicate Filled<Row>(batch: Flat<Row>, want: Flat<Row>, n: nat, at: seq<nat>)
  {
    forall j: nat :: j < n && j in at ==> RowIs(batch, j, want, j)
  }

  /** `_fill_batch_from_buffer_indices`: batch row positions[i] becomes source row rows[i]. */
  method FillBatch<Row>(batch: Flat<Row>, src: Flat<Row>, positions: seq<nat>, rows: seq<nat>, ghost n: nat,
        ghost want: Flat<Row>)
    returns (r: Flat<Row>)
    requires Sized(batch, want.Keys, n) && Sized(want, want.Keys, n)
    requires |positions| == |rows| && AscendingBelow(positions, n)
    requires forall i :: 0 <= i < |rows| ==> RowIs(src, rows[i], want, positions[i])
    ensures Sized(r, want.Keys, n) && Filled(r, want, n, positions)
    ensures forall k, j: nat :: k in want.Keys && j < n && j !in positions ==> r[k][j] == batch[k][j]
  {
    r := batch;
    for i := 0 to |positions|
      invariant Sized(r, want.Keys, n) && Filled(r, want, n, positions[..i])
      invariant forall k, j: nat :: k in want.Keys && j < n && j !in positions[..i] ==> r[k][j] == batch[k][j]
    {
      assert RowIs(src, rows[i], want, positions[i]);
      r := SetColumn(r, positions[i], src, rows[i]);
      assert positions[..i + 1] == positions[..i] + [positions[i]];
    }
    assert positions[..|positions|] == positions;
  }

  /** Filling other positions leaves the filled ones filled. */
  lemma {:induction false} OthersStay<Row>(before: Flat<Row>, after: Flat<Row>, want: Flat<Row>, n: nat,
        hits: seq<nat>, misses: seq<nat>)
    requires Sized(before, want.Keys, n) && Sized(after, want.Keys, n) && (forall j :: j in hits ==> j !in misses)
    requires hits != [] ==> Filled(before, want, n, hits)
    requires forall k, j: nat :: k in want.Keys && j < n && j !in misses ==> after[k][j] == before[k][j]
    ensures Filled(after, want, n, hits)
  {
    forall j: nat | j < n && j in hits ensures RowIs(after, j, want, j) {
      assert RowIs(before, j, want, j);
    }
  }

  lemma {:induction false} FilledIsWanted<Row>(batch: Flat<Row>, want: Flat<Row>, n: nat, hits: seq<nat>,
        misses: seq<nat>)
    requires Sized(batch, want.Keys, n) && Sized(want, want.Keys, n)
    requires Filled(batch, want, n, hits) && Filled(batch, want, n, misses)
    requires forall j: nat :: j < n ==> j in hits || j in misses
    ensures batch == want
  {
    forall k | k in want.Keys ensures batch[k] == want[k] {
      forall j: nat | j < n ensures batch[k][j] == want[k][j] {
        assert RowIs(batch, j, want, j);
      }
    }
  }

  // ---------------------------------------------------------------- hits

  /** Row j of the wanted batch is the row of the log that draw j asks for. */
  ghost predicate AsksFor<Row>(log: Log<Row>, keys: set<Key>, tid: int, local: nat, want: Flat<Row>, j: nat) {
    && Drawable(log, keys, tid, local) && want.Keys == keys
    && forall k :: k in keys ==> j < |want[k]| && want[k][j] == log.trajs[tid][k][local]
  }

  ghost predicate Asked<Row>(log: Log<Row>, keys: set<Key>, tids: seq<int>, locals: seq<nat>, want: Flat<Row>) {
    && |tids| == |locals| && Sized(want, keys, |tids|)
    && forall j :: 0 <= j < |tids| ==> AsksFor(log, keys, tids[j], locals[j], want, j)
  }

  /** `cached_slots * slot_len + cached_local`. */
  function BufferRow(slot: nat, size: nat, local: nat): (r: nat)
    ensures r == slot * size + local
  {
    SuccTimes(slot, size);
    slot * size + local
  }

  function BufferRows(cache: map<int, nat>, size: nat, tids: seq<int>, locals: seq<nat>, hits: seq<nat>): (r: seq<nat>)
    requires |tids| == |locals| && forall i :: 0 <= i < |hits| ==> hits[i] < |tids| && tids[hits[i]] in cache
    ensures |r| == |hits|
    ensures forall i :: 0 <= i < |hits| ==> r[i] == BufferRow(cache[tids[hits[i]]], size, locals[hits[i]])
  {
    seq(|hits|, i requires 0 <= i < |hits| => BufferRow(cache[tids[hits[i]]], size, locals[hits[i]]))
  }

  /** A cached trajectory's row in the flat buffer is its row in the log. */
  lemma {:induction false} HitRow<Row>(buffer: Flat<Row>, slots: nat, size: nat, slot: nat, lengths: map<Key, nat>,
        log: Log<Row>, keys: set<Key>, tid: int, local: nat, want: Flat<Row>, j: nat)
    requires BufferOk(buffer, slots, size) && LengthsOk(buffer, size, lengths) && slot < slots
    requires AsksFor(log, keys, tid, local, want, j) && RowsOf(buffer, slots, size, slot, lengths) == log.trajs[tid]
    ensures RowIs(buffer, BufferRow(slot, size, local), want, j)
  {
    SlotBounds(slots, size, slot);
    var row, rows := BufferRow(slot, size, local), RowsOf(buffer, slots, size, slot, lengths);
    forall k | k in keys ensures row < |buffer[k]| && buffer[k][row] == want[k][j] {
      assert rows[k] == SlotRows(buffer[k], slots, size, slot, lengths[k]);
      assert |rows[k]| == log.counts[tid];
      assert rows[k][local] == want[k][j];
    }
  }

  // ---------------------------------------------------------------- misses

  /** Where each loaded trajectory starts in their concatenation. */
  ghost predicate OffsetsOf(offsets: map<int, nat>, ids: seq<int>, counts: map<int, nat>, n: nat)
    requires n <= |ids| && forall i :: 0 <= i < |ids| ==> ids[i] in counts
  {
    forall i {:trigger ids[i] in offsets} {:trigger offsets[ids[i]]} :: 0 <= i < n ==>
      ids[i] in offsets && offsets[ids[i]] == SamplesBefore(ids, counts, i)
  }

  /** The rows of the first n listed trajectories, for every key. */
  ghost predicate ConcatOf<Row>(concat: Flat<Row>, ids: seq<int>, log: Log<Row>, keys: set<Key>, n: nat)
    requires n <= |ids| && Stocked(ids, log.counts, log.trajs, keys)
  {
    concat.Keys == keys && forall k :: k in keys ==> concat[k] == WindowRows(ids, log.counts, log.trajs, keys, k, n)
  }

  lemma {:induction false} OffsetNext(offsets: map<int, nat>, ids: seq<int>, counts: map<int, nat>, i: nat)
    requires i < |ids| && Distinct(ids)
    requires (forall j :: 0 <= j < |ids| ==> ids[j] in counts) && OffsetsOf(offsets, ids, counts, i)
    ensures OffsetsOf(offsets[ids[i] := SamplesBefore(ids, counts, i)], ids, counts, i + 1)
  {
    forall j: nat | j < i ensures ids[j] != ids[i] {
      assert Differ(ids, j, i);
    }
  }

  lemma {:induction false} ConcatNext<Row>(concat: Flat<Row>, ids: seq<int>, log: Log<Row>, keys: set<Key>, i: nat)
    requires i < |ids| && Stocked(ids, log.counts, log.trajs, keys) && ConcatOf(concat, ids, log, keys, i)
    ensures InStock(ids[i], log.counts, log.trajs, keys)
    ensures forall k :: k in keys ==>
      concat[k] + log.trajs[ids[i]][k] == WindowRows(ids, log.counts, log.trajs, keys, k, i + 1)
  {
    assert InStock(ids[i], log.counts, log.trajs, keys);
  }

  /** `miss_offsets + miss_local`. */
  function MissRows(offsets: map<int, nat>, tids: seq<int>, locals: seq<nat>, misses: seq<nat>): (r: seq<nat>)
    requires |tids| == |locals| && forall i :: 0 <= i < |misses| ==> misses[i] < |tids| && tids[misses[i]] in offsets
    ensures |r| == |misses|
    ensures forall i :: 0 <= i < |misses| ==> r[i] == offsets[tids[misses[i]]] + locals[misses[i]]
  {
    seq(|misses|, i requires 0 <= i < |misses| => offsets[tids[misses[i]]] + locals[misses[i]])
  }

  /** A loaded trajectory's row in the concatenation is its row in the log. */
  lemma {:induction false} MissRow<Row>(log: Log<Row>, keys: set<Key>, ids: seq<int>, p: nat, offsets: map<int, nat>,
        concat: Flat<Row>, local: nat, want: Flat<Row>, j: nat)
    requires Stocked(ids, log.counts, log.trajs, keys) && p < |ids|
    requires OffsetsOf(offsets, ids, log.counts, |ids|) && ConcatOf(concat, ids, log, keys, |ids|)
    requires AsksFor(log, keys, ids[p], local, want, j)
    ensures ids[p] in offsets && RowIs(concat, offsets[ids[p]] + local, want, j)
  {
    forall k | k in keys
      ensures offsets[ids[p]] + local < |concat[k]| && concat[k][offsets[ids[p]] + local] == want[k][j]
    {
      RowOfSample(ids, log.counts, log.trajs, keys, k, |ids|, p, local);
    }
  }

  lemma {:induction false} MissRowsAreWanted<Row>(log: Log<Row>, keys: set<Key>, ids: seq<int>,
        offsets: map<int, nat>, concat: Flat<Row>, tids: seq<int>, locals: seq<nat>, misses: seq<nat>,
        want: Flat<Row>)
    requires Stocked(ids, log.counts, log.trajs, keys)
    requires OffsetsOf(offsets, ids, log.counts, |ids|) && ConcatOf(concat, ids, log, keys, |ids|)
    requires Asked(log, keys, tids, locals, want)
    requires forall i :: 0 <= i < |misses| ==> misses[i] < |tids| && tids[misses[i]] in ids
    ensures forall i :: 0 <= i < |misses| ==>
      tids[misses[i]] in offsets && RowIs(concat, offsets[tids[misses[i]]] + locals[misses[i]], want, misses[i])
  {
    forall i | 0 <= i < |misses|
      ensures tids[misses[i]] in offsets && RowIs(concat, offsets[tids[misses[i]]] + locals[misses[i]], want, misses[i])
    {
      var p :| 0 <= p < |ids| && ids[p] == tids[misses[i]];
      assert AsksFor(log, keys, tids[misses[i]], locals[misses[i]], want, misses[i]);
      MissRow(log, keys, ids, p, offsets, concat, locals[misses[i]], want, misses[i]);
    }
  }

  /** The ids to load: those of the window that some miss names. */
  function MissIds(windowIds: seq<int>, tids: seq<int>, misses: seq<nat>): (r: seq<int>)
    requires forall i :: 0 <= i < |misses| ==> misses[i] < |tids|
    ensures forall id :: id in r ==> id in windowIds
    ensures forall i :: 0 <= i < |misses| && tids[misses[i]] in windowIds ==> tids[misses[i]] in r
  {
    Named(windowIds, set i | 0 <= i < |misses| :: tids[misses[i]])
  }

  // ---------------------------------------------------------------- the window as a batch

  /** The batch that the draws ask for. */
  ghost function DrawnRowsOf<Row>(log: Log<Row>, keys: set<Key>, ids: seq<int>, draws: seq<nat>): (r: Flat<Row>)
    requires Stocked(ids, log.counts, log.trajs, keys)
    requires forall j :: 0 <= j < |draws| ==> draws[j] < SamplesBefore(ids, log.counts, |ids|)
    ensures Sized(r, keys, |draws|)
    ensures forall k :: k in keys ==> r[k] == Gather(WindowRows(ids, log.counts, log.trajs, keys, k, |ids|), draws)
  {
    map k | k in keys :: Gather(WindowRows(ids, log.counts, log.trajs, keys, k, |ids|), draws)
  }

  lemma {:induction false} DrawAsks<Row>(log: Log<Row>, keys: set<Key>, w: Window, draws: seq<nat>, j: nat)
    requires Stocked(w.ids, log.counts, log.trajs, keys) && w.ends == Ends(w.ids, log.counts)
    requires forall i :: 0 <= i < |draws| ==> draws[i] < SamplesBefore(w.ids, log.counts, |w.ids|)
    requires forall i :: 0 <= i < |draws| ==> Bucket(w.ends, draws[i]) < |w.ids|
    requires j < |draws| && Drawable(log, keys, DrawnIds(w, draws)[j], DrawnRows(w, draws)[j])
    ensures AsksFor(log, keys, DrawnIds(w, draws)[j], DrawnRows(w, draws)[j], DrawnRowsOf(log, keys, w.ids, draws), j)
  {
    var b, local := Bucket(w.ends, draws[j]), DrawnRows(w, draws)[j];
    BucketInRange(w.ids, log.counts, draws[j]);
    forall k | k in keys
      ensures WindowRows(w.ids, log.counts, log.trajs, keys, k, |w.ids|)[draws[j]] == log.trajs[w.ids[b]][k][local]
    {
      RowOfSample(w.ids, log.counts, log.trajs, keys, k, |w.ids|, b, local);
    }
  }

  // ---------------------------------------------------------------- the class

  class ReplayBuffer<Row(0)> {
    const autoSave: bool
    const windowSize: nat
    const cache: TrajectoryCache<Row>
    /** The tensor keys that every trajectory has. */
    ghost const keys: set<Key>
    var counts: map<int, nat>
    var ids: seq<int>
    /** The stored files, by trajectory id. */
    var files: map<int, Flat<Row>>
    var counter: nat
    var version: nat
    var total: nat
    var window: Option<Window>
    /** Every listed trajectory, whether cached or not. */
    ghost var trajs: map<int, Flat<Row>>

    ghost function View(): Log<Row>
      reads this
    {
      Log(ids, counts, trajs, counter)
    }

    ghost predicate IndexValid()
      reads this
    {
      && IndexOk(View(), keys, total, autoSave, files) && windowSize > 0
      && (window.Some? ==> window.value.version <= version)
    }

    ghost predicate CacheMirrors(log: Log<Row>)
      reads cache
    {
      && cache.Valid() && Mirrors(cache.View(), cache.maxSize, log)
      && (cache.slotLen.Some? ==> cache.buffer.Keys == keys)
    }

    ghost predicate CacheValid()
      reads this, cache
    {
      CacheMirrors(View()) && (!autoSave ==> cache.maxSize == windowSize)
    }

    ghost predicate Valid()
      reads this, cache
    {
      IndexValid() && CacheValid()
    }

    /** Sampling uses the window of the log, unless the buffer is empty and refuses to sample. */
    ghost predicate Coherent()
      requires LogOk(View(), keys)
      reads this
    {
      ids != [] ==>
        WindowUsed(window, View(), keys, windowSize, version) == FreshWindow(View(), keys, windowSize, version)
    }

    constructor (autoSave: bool, windowSize: nat, cacheSize: nat, ghost keys: set<Key>)
      requires windowSize > 0 && (autoSave ==> cacheSize > 0) && keys != {}
      ensures Valid() && Coherent() && fresh(cache) && this.windowSize == windowSize && this.keys == keys
      ensures this.autoSave == autoSave && View() == Log([], map[], map[], 0)
    {
      this.autoSave, this.windowSize, this.keys := autoSave, windowSize, keys;
      cache := new TrajectoryCache<Row>(if autoSave then cacheSize else windowSize);
      counts, ids, files, counter, version, total, window, trajs := map[], [], map[], 0, 0, 0, None, map[];
    }

    /** The index update for a trajectory with samples. */
    method AddToIndex(t: Incoming<Row>)
      requires IndexValid() && Acceptable(t, keys) && t.samples.Some?
      modifies this
      ensures IndexValid() && Coherent() && View() == LogAdd(old(View()), t)
    {
      ghost var log := View();
      IndexAddOk(log, t, keys, total, autoSave, files);
      var id := counter;
      if autoSave {
        files := files[id := t.flat];
      }
      counts, ids, trajs := counts[id := t.samples.value], ids + [id], trajs[id := t.flat];
      counter, total, version := counter + 1, total + t.samples.value, version + 1;
      assert View() == LogAdd(log, t);
      BumpedIsFresh(window, LogAdd(log, t), keys, windowSize, version);
    }

    /** The cache update for a trajectory with samples. */
    method AddToCache(t: Incoming<Row>, id: int, ghost log: Log<Row>)
      requires CacheMirrors(log) && LogOk(log, keys) && keys != {}
      requires Acceptable(t, keys) && t.samples.Some? && id == log.next
      modifies cache
      ensures CacheMirrors(LogAdd(log, t))
    {
      PutMirrors(cache.View(), cache.maxSize, log, t, keys);
      assert t.flat.Keys == keys;
      var put := cache.Put(id, t.flat);
    }

    /** One iteration of `add_trajectories`: index first, then the cache. */
    method AddOne(t: Incoming<Row>)
      requires Valid() && Acceptable(t, keys)
      modifies this, cache
      ensures Valid() && View() == LogAdd(old(View()), t)
      ensures t.samples.Some? || old(Coherent()) ==> Coherent()
    {
      if t.samples.Some? {
        AddSampled(t, View());
      }
    }

    method AddSampled(t: Incoming<Row>, ghost log: Log<Row>)
      requires IndexValid() && CacheValid() && Acceptable(t, keys) && t.samples.Some? && log == View()
      modifies this, cache
      ensures IndexValid() && CacheValid() && Coherent() && View() == LogAdd(log, t)
    {
      var id := counter;
      AddToIndex(t);
      assert CacheMirrors(log);
      AddToCache(t, id, log);
      assert View() == LogAdd(log, t);
    }

    /** Adding any trajectory with samples also heals a window that a load has left stale. */
    method AddTrajectories(ts: seq<Incoming<Row>>)
      requires Valid() && forall i :: 0 <= i < |ts| ==> Acceptable(ts[i], keys)
      modifies this, cache
      ensures Valid() && View() == LogAddAll(old(View()), ts)
      ensures old(Coherent()) || AnySampled(ts) ==> Coherent()
    {
      ghost var start, coherent := View(), Coherent();
      for i := 0 to |ts|
        invariant Valid() && View() == LogAddAll(start, ts[..i])
        invariant coherent || AnySampled(ts[..i]) ==> Coherent()
      {
        LogAddNext(start, ts, i);
        SampledNext(ts, i);
        AddOne(ts[i]);
      }
      assert ts[..|ts|] == ts;
    }

    method ClearIndex()
      requires IndexValid()
      modifies this
      ensures IndexValid() && Coherent() && View() == Log([], map[], map[], 0)
    {
      counts, ids, files, trajs := map[], [], map[], map[];
      total, counter := 0, 0;
    }

    /** `clear`: neither the version nor the cached window is reset; the empty buffer refuses to sample. */
    method Clear()
      requires Valid()
      modifies this, cache
      ensures Valid() && Coherent() && View() == Log([], map[], map[], 0)
    {
      EmptyMirrors<Row>(cache.maxSize);
      ClearIndex();
      cache.Clear();
    }

    /** The index part of a full `load_checkpoint`: neither the version nor the cached window is touched. */
    method LoadIndex(log: Log<Row>, totalSamples: nat, saved: map<int, Flat<Row>>)
      requires IndexValid() && LogOk(log, keys) && totalSamples == SamplesBefore(log.ids, log.counts, |log.ids|)
      requires autoSave ==> Filed(log, saved)
      modifies this
      ensures IndexValid() && View() == log && window == old(window) && version == old(version)
    {
      counts, ids, trajs, counter := log.counts, log.ids, log.trajs, log.next;
      total, files := totalSamples, saved;
      assert View() == log;
    }

    /** The cache part of `load_checkpoint`: the most recent trajectories are loaded and put, oldest first. */
    method LoadCache(recent: seq<int>, saved: map<int, Flat<Row>>) returns (r: Result<()>)
      requires cache.Valid() && keys != {}
      requires forall i :: 0 <= i < |recent| && recent[i] in saved ==> saved[recent[i]].Keys == keys
      modifies cache
      ensures r == if AllIn(recent, saved) then Ok(()) else Err(FileNotFoundError)
      ensures r.Ok? ==> cache.Valid() && cache.View() == Reloaded(recent, saved, cache.maxSize, |recent|)
      ensures r.Ok? && cache.slotLen.Some? ==> cache.buffer.Keys == keys
    {
      cache.Clear();
      for i := 0 to |recent|
        invariant forall j :: 0 <= j < i ==> recent[j] in saved
        invariant cache.Valid() && cache.View() == Reloaded(recent, saved, cache.maxSize, i)
        invariant cache.slotLen.Some? ==> cache.buffer.Keys == keys
      {
        if recent[i] !in saved {
          return Err(FileNotFoundError);
        }
        LoadNext(recent, saved, i);
      }
      r := Ok(());
    }

    method LoadNext(recent: seq<int>, saved: map<int, Flat<Row>>, i: nat)
      requires cache.Valid() && keys != {} && i < |recent| && (forall j :: 0 <= j <= i ==> recent[j] in saved)
      requires saved[recent[i]].Keys == keys && (cache.slotLen.Some? ==> cache.buffer.Keys == keys)
      requires cache.View() == Reloaded(recent, saved, cache.maxSize, i)
      modifies cache
      ensures cache.Valid() && (cache.slotLen.Some? ==> cache.buffer.Keys == keys)
      ensures cache.View() == Reloaded(recent, saved, cache.maxSize, i + 1)
    {
      var put := cache.Put(recent[i], saved[recent[i]]);
    }

    /** A full `load_checkpoint`: the buffer stands for the loaded log, but its cached window may be stale. */
    method LoadCheckpoint(log: Log<Row>, totalSamples: nat, saved: map<int, Flat<Row>>) returns (r: Result<()>)
      requires Valid() && LogOk(log, keys) && totalSamples == SamplesBefore(log.ids, log.counts, |log.ids|)
      requires forall i :: 0 <= i < |log.ids| ==> SavedRight(log.ids[i], log, saved)
      requires autoSave ==> Filed(log, saved)
      modifies this, cache
      ensures r == if AllIn(LastOf(log.ids, cache.maxSize), saved) then Ok(()) else Err(FileNotFoundError)
      ensures r.Ok? ==> Valid() && View() == log
      ensures r.Ok? && !IsCurrent(old(window), windowSize, old(version)) ==> Coherent()
      ensures window == old(window) && version == old(version)
    {
      LoadIndex(log, totalSamples, saved);
      SavedKeys(log, keys, saved, cache.maxSize);
      r := LoadCache(LastOf(log.ids, cache.maxSize), saved);
      if r.Ok? {
        ReloadMirrors(log, keys, saved, cache.maxSize);
      }
    }

    /** A distributed `load_checkpoint`: the buffer stands for the rank's share of the log. */
    method LoadShare(log: Log<Row>, saved: map<int, Flat<Row>>, rank: int, ranks: int) returns (r: Result<()>)
      requires Valid() && LogOk(log, keys) && (autoSave ==> Filed(log, saved))
      requires forall i :: 0 <= i < |log.ids| ==> SavedRight(log.ids[i], log, saved)
      modifies this, cache
      ensures rank < 0 || rank >= ranks ==> r == Err(ValueError) && Valid() && View() == old(View())
      ensures 0 <= rank < ranks ==> ShareStart(|log.ids|, rank, ranks) <= ShareEnd(|log.ids|, rank, ranks) <= |log.ids|
      ensures 0 <= rank < ranks ==>
        var share := ShareOf(log, ShareStart(|log.ids|, rank, ranks), ShareEnd(|log.ids|, rank, ranks));
        && (r == if AllIn(LastOf(share.ids, cache.maxSize), saved) then Ok(()) else Err(FileNotFoundError))
        && (r.Ok? ==> Valid() && View() == share)
        && (r.Ok? && !IsCurrent(old(window), windowSize, old(version)) ==> Coherent())
      ensures window == old(window) && version == old(version)
    {
      var ids := RankIds(log.ids, rank, ranks);
      if ids.Err? {
        return Err(ids.error);
      }
      var start, end := ShareStart(|log.ids|, rank, ranks), ShareEnd(|log.ids|, rank, ranks);
      var share := ShareOf(log, start, end);
      ShareIsLog(log, keys, start, end);
      ShareIsSaved(log, start, end, saved);
      var totalSamples := SumSamples(share.ids, share.counts);
      r := LoadCheckpoint(share, totalSamples, saved);
    }

    /** The ids to sample from. */
    ghost function WindowIds(): seq<int>
      reads this
    {
      LastOf(ids, windowSize)
    }

    /** The window metadata, recomputed unless it is cached for the current size and version. */
    method CurrentWindow() returns (w: Window)
      requires IndexValid() && ids != []
      modifies this`window
      ensures IndexValid() && window == Some(w)
      ensures w == WindowUsed(old(window), View(), keys, windowSize, version)
    {
      if window.Some? && window.value.size == windowSize && window.value.version == version {
        return window.value;
      }
      var recent := LastOf(ids, windowSize);
      RecentStocked(View(), windowSize, keys);
      var ends := ComputeEnds(recent, counts);
      w := Window(windowSize, version, recent, ends);
      window := Some(w);
    }

    /** A coherent buffer samples from the window of its log. */
    method CoherentWindow() returns (w: Window)
      requires Valid() && Coherent() && ids != []
      modifies this`window
      ensures Valid() && Coherent() && w.ids == WindowIds()
      ensures Stocked(w.ids, counts, trajs, keys) && w.ends == Ends(w.ids, counts)
    {
      RecentStocked(View(), windowSize, keys);
      w := CurrentWindow();
    }

    /** Loads the missing trajectories and concatenates them, remembering where each one starts. */
    method LoadMisses(missIds: seq<int>, ghost log: Log<Row>) returns (concat: Flat<Row>, offsets: map<int, nat>)
      requires missIds != [] && Distinct(missIds) && log.counts == counts && Stocked(missIds, counts, log.trajs, keys)
      requires forall i :: 0 <= i < |missIds| ==> missIds[i] in files && files[missIds[i]] == log.trajs[missIds[i]]
      ensures OffsetsOf(offsets, missIds, counts, |missIds|) && ConcatOf(concat, missIds, log, keys, |missIds|)
    {
      offsets, concat := map[], map k | k in files[missIds[0]] :: [];
      var cursor: nat := 0;
      assert InStock(missIds[0], counts, log.trajs, keys);
      for i := 0 to |missIds|
        invariant cursor == SamplesBefore(missIds, counts, i)
        invariant OffsetsOf(offsets, missIds, counts, i)
        invariant ConcatOf(concat, missIds, log, keys, i)
      {
        assert InStock(missIds[i], counts, log.trajs, keys);
        ConcatNext(concat, missIds, log, keys, i);
        concat := map k | k in concat :: concat[k] + files[missIds[i]][k];
        OffsetNext(offsets, missIds, counts, i);
        offsets := offsets[missIds[i] := cursor];
        cursor := cursor + counts[missIds[i]];
      }
    }

    /** A draw of a cached trajectory finds its row in the flat buffer. */
    ghost predicate HitsAreRight(tids: seq<int>, locals: seq<nat>, want: Flat<Row>)
      requires |tids| == |locals|
      reads cache
    {
      forall j :: 0 <= j < |tids| && tids[j] in cache.cache ==>
        && cache.slotLen.Some?
        && RowIs(cache.buffer, BufferRow(cache.cache[tids[j]], cache.slotLen.value, locals[j]), want, j)
    }

    lemma {:induction false} HitIsRight(log: Log<Row>, tid: int, local: nat, want: Flat<Row>, j: nat)
      requires CacheMirrors(log) && keys != {} && AsksFor(log, keys, tid, local, want, j) && tid in cache.cache
      ensures cache.slotLen.Some?
      ensures RowIs(cache.buffer, BufferRow(cache.cache[tid], cache.slotLen.value, local), want, j)
    {
      assert tid in cache.View().vals;
      HitRow(cache.buffer, cache.maxSize, cache.Size(), cache.cache[tid], cache.keyLengths[tid], log, keys, tid,
        local, want, j);
    }

    /** 1) Cache hits: gathers from the flat buffer. */
    method FillHits(tids: seq<int>, locals: seq<nat>, hits: seq<nat>, ghost want: Flat<Row>) returns (r: Flat<Row>)
      requires |tids| == |locals| && Sized(want, want.Keys, |tids|) && HitsAreRight(tids, locals, want)
      requires AscendingBelow(hits, |tids|) && hits != []
      requires forall i :: 0 <= i < |hits| ==> tids[hits[i]] in cache.cache
      ensures Sized(r, want.Keys, |tids|) && Filled(r, want, |tids|, hits)
    {
      assert tids[hits[0]] in cache.cache;
      var batch := Allocate<Row>(cache.buffer.Keys, |tids|);
      var rows := BufferRows(cache.cache, cache.slotLen.value, tids, locals, hits);
      r := FillBatch(batch, cache.buffer, hits, rows, |tids|, want);
    }

    /** 2) Cache misses: loads all of them, concatenates and gathers once. */
    method FillMisses(batch: Flat<Row>, tids: seq<int>, locals: seq<nat>, hits: seq<nat>, misses: seq<nat>,
          windowIds: seq<int>, ghost log: Log<Row>, ghost want: Flat<Row>) returns (r: Flat<Row>)
      requires log.counts == counts && LogOk(log, keys) && Filed(log, files) && Asked(log, keys, tids, locals, want)
      requires AscendingBelow(misses, |tids|) && misses != [] && windowIds == LastOf(log.ids, windowSize)
      requires forall i :: 0 <= i < |misses| ==> tids[misses[i]] in windowIds
      requires hits != [] ==> Sized(batch, keys, |tids|) && Filled(batch, want, |tids|, hits)
      requires forall j :: j in hits ==> j !in misses
      ensures Sized(r, keys, |tids|) && Filled(r, want, |tids|, misses) && Filled(r, want, |tids|, hits)
    {
      var concat, rows := LocateMisses(tids, locals, misses, windowIds, log, want);
      r := batch;
      if hits == [] {
        r := Allocate<Row>(concat.Keys, |tids|);
      }
      ghost var start := r;
      r := FillBatch(r, concat, misses, rows, |tids|, want);
      OthersStay(start, r, want, |tids|, hits, misses);
    }

    /** The loaded rows of the misses: where they are in the concatenation. */
    method LocateMisses(tids: seq<int>, locals: seq<nat>, misses: seq<nat>, windowIds: seq<int>, ghost log: Log<Row>,
          ghost want: Flat<Row>)
      returns (concat: Flat<Row>, rows: seq<nat>)
      requires log.counts == counts && LogOk(log, keys) && Filed(log, files) && Asked(log, keys, tids, locals, want)
      requires AscendingBelow(misses, |tids|) && misses != [] && windowIds == LastOf(log.ids, windowSize)
      requires forall i :: 0 <= i < |misses| ==> tids[misses[i]] in windowIds
      ensures concat.Keys == keys && |rows| == |misses|
      ensures forall i :: 0 <= i < |misses| ==> RowIs(concat, rows[i], want, misses[i])
    {
      var missIds := MissIds(windowIds, tids, misses);
      MissIdsAreFiled(log, files, windowIds, tids, misses);
      var offsets;
      concat, offsets := LoadMisses(missIds, log);
      MissRowsAreWanted(log, keys, missIds, offsets, concat, tids, locals, misses, want);
      rows := MissRows(offsets, tids, locals, misses);
    }

    lemma {:induction false} MissIdsAreFiled(log: Log<Row>, filed: map<int, Flat<Row>>, windowIds: seq<int>,
          tids: seq<int>, misses: seq<nat>)
      requires LogOk(log, keys) && Filed(log, filed) && misses != [] && windowIds == LastOf(log.ids, windowSize)
      requires forall i :: 0 <= i < |misses| ==> misses[i] < |tids| && tids[misses[i]] in windowIds
      ensures var missIds := MissIds(windowIds, tids, misses);
        && missIds != [] && Distinct(missIds) && Stocked(missIds, log.counts, log.trajs, keys)
        && forall i :: 0 <= i < |missIds| ==> missIds[i] in filed && filed[missIds[i]] == log.trajs[missIds[i]]
    {
      var missIds := MissIds(windowIds, tids, misses);
      WindowListed(log, windowSize, keys);
      assert tids[misses[0]] in missIds;
      NamedDistinct(windowIds, set i | 0 <= i < |misses| :: tids[misses[i]]);
      forall i | 0 <= i < |missIds| ensures missIds[i] in log.ids {
        assert missIds[i] in windowIds;
      }
      ListedStocked(log, missIds, keys, filed);
    }

    /** A draw misses the cache only when files are kept. */
    lemma {:induction false} MissesNeedFiles(tid: int)
      requires Valid() && tid in WindowIds()
      ensures autoSave || tid in cache.cache
    {
      if !autoSave {
        var i :| 0 <= i < |WindowIds()| && WindowIds()[i] == tid;
        WindowIsCached(cache.View(), cache.maxSize, View(), windowSize, i);
      }
    }

    /** Draws from the window: hits from the cache, misses from the files. */
    method FillDraws(tids: seq<int>, locals: seq<nat>, windowIds: seq<int>, ghost log: Log<Row>, ghost want: Flat<Row>)
      returns (batch: Flat<Row>)
      requires Served(log, windowIds, tids, locals, want) && tids != []
      requires log.counts == counts && LogOk(log, keys) && windowIds == LastOf(log.ids, windowSize)
      ensures batch == want
    {
      var n := |tids|;
      var mask := CachedMask(cache.cache, tids);
      var hits, misses := Positions(mask, true, n), Positions(mask, false, n);
      assert 0 in hits || 0 in misses;
      batch := map[];
      if hits != [] {
        batch := FillHits(tids, locals, hits, want);
      }
      if misses != [] {
        assert misses[0] in misses;
        batch := FillMisses(batch, tids, locals, hits, misses, windowIds, log, want);
      }
      FilledIsWanted(batch, want, n, hits, misses);
    }

    /** Every draw of the window finds its row in the flat buffer or in a file. */
    ghost predicate Served(log: Log<Row>, windowIds: seq<int>, tids: seq<int>, locals: seq<nat>, want: Flat<Row>)
      reads this, cache
    {
      && Asked(log, keys, tids, locals, want) && HitsAreRight(tids, locals, want)
      && forall j :: 0 <= j < |tids| ==> tids[j] in windowIds && (tids[j] in cache.cache || Filed(log, files))
    }

    lemma {:induction false} DrawIsServed(tid: int, local: nat, want: Flat<Row>, j: nat)
      requires Valid() && tid in WindowIds() && AsksFor(View(), keys, tid, local, want, j)
      ensures tid in cache.cache || Filed(View(), files)
      ensures tid in cache.cache ==>
        cache.slotLen.Some? && RowIs(cache.buffer, BufferRow(cache.cache[tid], cache.slotLen.value, local), want, j)
    {
      MissesNeedFiles(tid);
      if tid in cache.cache {
        HitIsRight(View(), tid, local, want, j);
      }
    }

    lemma {:induction false} DrawsAreServed(w: Window, draws: seq<nat>)
      requires Valid() && w.ids == WindowIds() && Stocked(w.ids, counts, trajs, keys) && w.ends == Ends(w.ids, counts)
      requires forall j :: 0 <= j < |draws| ==> draws[j] < SamplesBefore(w.ids, counts, |w.ids|)
      requires forall j :: 0 <= j < |draws| ==> Bucket(w.ends, draws[j]) < |w.ids|
      requires forall j :: 0 <= j < |draws| ==> Drawable(View(), keys, DrawnIds(w, draws)[j], DrawnRows(w, draws)[j])
      ensures Served(View(), w.ids, DrawnIds(w, draws), DrawnRows(w, draws), DrawnRowsOf(View(), keys, w.ids, draws))
    {
      var want, tids, locals := DrawnRowsOf(View(), keys, w.ids, draws), DrawnIds(w, draws), DrawnRows(w, draws);
      forall j | 0 <= j < |draws|
        ensures AsksFor(View(), keys, tids[j], locals[j], want, j)
        ensures tids[j] in cache.cache || Filed(View(), files)
        ensures tids[j] in cache.cache ==>
          && cache.slotLen.Some?
          && RowIs(cache.buffer, BufferRow(cache.cache[tids[j]], cache.slotLen.value, locals[j]), want, j)
      {
        DrawAsks(View(), keys, w, draws, j);
        DrawIsServed(tids[j], locals[j], want, j);
      }
    }

    ghost function WindowSamples(): nat
      requires Stocked(WindowIds(), counts, trajs, keys)
      reads this
    {
      SamplesBefore(WindowIds(), counts, |WindowIds()|)
    }

    /** The rows of the window that the draws name, in the order of the draws. */
    ghost function WindowRowsAt(draws: seq<nat>): Flat<Row>
      requires Stocked(WindowIds(), counts, trajs, keys)
      requires forall j :: 0 <= j < |draws| ==> draws[j] < WindowSamples()
      reads this
    {
      assert WindowSamples() == SamplesBefore(WindowIds(), View().counts, |WindowIds()|);
      DrawnRowsOf(View(), keys, WindowIds(), draws)
    }

    /** The sampled rows of a window with samples. */
    method SampleWindow(w: Window, draws: seq<nat>) returns (batch: Flat<Row>)
      requires Valid() && w.ids == WindowIds() && Stocked(w.ids, counts, trajs, keys) && w.ends == Ends(w.ids, counts)
      requires draws != [] && forall j :: 0 <= j < |draws| ==> draws[j] < SamplesBefore(w.ids, counts, |w.ids|)
      ensures batch == DrawnRowsOf(View(), keys, w.ids, draws)
    {
      DrawsAreDrawable(View(), keys, windowSize, w, draws);
      DrawsAreServed(w, draws);
      batch := FillDraws(DrawnIds(w, draws), DrawnRows(w, draws), w.ids, View(),
        DrawnRowsOf(View(), keys, w.ids, draws));
    }

    /** `sample_chunks` for given draws: row j of the batch is row draws[j] of the window. */
    method SampleChunks(numChunks: nat, draws: seq<nat>) returns (r: Result<Flat<Row>>)
      requires Valid() && Coherent() && numChunks > 0
      requires Stocked(WindowIds(), counts, trajs, keys)
      requires |draws| == Min(numChunks, WindowSamples())
      requires forall j :: 0 <= j < |draws| ==> draws[j] < WindowSamples()
      modifies this`window
      ensures Valid() && Coherent()
      ensures r == if total == 0 then Err(RuntimeError) else if draws == [] then Ok(map[])
                   else Ok(WindowRowsAt(draws))
    {
      if total == 0 {
        return Err(RuntimeError);
      }
      var w := CoherentWindow();
      LastEnd(w.ids, counts);
      if w.ids == [] || w.ends[|w.ends| - 1] == 0 {
        return Ok(map[]);
      }
      var batch := SampleWindow(w, draws);
      r := Ok(batch);
    }
  }
}
