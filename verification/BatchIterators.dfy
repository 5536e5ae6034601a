/**
 The batch-resizing iterator: fetched batches are cut into global batches and those into micro
 batches, one of which may be taken out early. Rows are delivered once each and in order, taking a
 batch early changes nothing that is delivered, and the end of a global batch is flagged exactly
 when the rows taken so far fill whole global batches.
*/
module BatchIterators {
  import opened Sequences
  import opened Outcomes

  // ---------------------------------------------------------------- splitting a batch

  /** The i-th of k equal parts. */
  function PartOf<Row>(batch: seq<Row>, k: nat, i: nat): (r: seq<Row>)
    requires k > 0 && |batch| % k == 0 && i < k
    ensures |r| == |batch| / k
  {
    PartBounds(|batch|, k, i);
    batch[i * (|batch| / k)..(i + 1) * (|batch| / k)]
  }

  lemma {:induction false} PartBounds(n: nat, k: nat, i: nat)
    requires k > 0 && n % k == 0 && i < k
    ensures 0 <= i * (n / k) && (i + 1) * (n / k) == i * (n / k) + n / k <= n
  {
    SuccTimes(i, n / k);
    MulMono(i + 1, k, n / k);
    assert n == k * (n / k);
  }

  /** `get_iterator_k_split` without shuffling. */
  function KSplit<Row>(batch: seq<Row>, k: nat): Result<seq<seq<Row>>> {
    if k == 0 then Err(ZeroDivisionError)
    else if |batch| % k != 0 then Err(AssertionError)
    else Ok(seq(k, i requires 0 <= i < k => PartOf(batch, k, i)))
  }

  lemma {:induction false} PartsFlatten<Row>(batch: seq<Row>, k: nat, parts: seq<seq<Row>>, n: nat)
    requires k > 0 && |batch| % k == 0 && n <= k && |parts| == k
    requires forall i :: 0 <= i < k ==> parts[i] == PartOf(batch, k, i)
    ensures n * (|batch| / k) <= |batch| && Flatten(parts[..n]) == batch[..n * (|batch| / k)]
  {
    if n > 0 {
      PartsFlatten(batch, k, parts, n - 1);
      PartBounds(|batch|, k, n - 1);
      assert parts[..n] == parts[..n - 1] + [parts[n - 1]];
      FlattenPush(parts[..n - 1], parts[n - 1]);
    }
  }

  /** Splitting keeps the rows and their order. */
  lemma {:induction false} KSplitKeeps<Row>(batch: seq<Row>, k: nat)
    requires KSplit(batch, k).Ok?
    ensures |KSplit(batch, k).value| == k > 0 && Flatten(KSplit(batch, k).value) == batch
    ensures forall i :: 0 <= i < k ==> |KSplit(batch, k).value[i]| == |batch| / k
  {
    var parts := KSplit(batch, k).value;
    PartsFlatten(batch, k, parts, k);
    assert parts[..k] == parts && k * (|batch| / k) == |batch|;
  }

  // ---------------------------------------------------------------- the iterator on values

  /** Rows per micro batch and per global batch, and whether a global-batch handler is registered. */
  datatype Sizes = Sizes(micro: nat, global: nat, hasHandler: bool)

  /** The iterator's state; `source` holds the batches that the fetch function will still return. */
  datatype State<Row> = State(
    source: seq<seq<Row>>,
    globals: seq<seq<Row>>,
    micros: seq<seq<Row>>,
    prefetched: Option<seq<Row>>,
    consumed: nat,
    done: bool,
    batches: seq<seq<Row>>
  )

  function Start<Row>(source: seq<seq<Row>>): State<Row> {
    State(source, [], [], None, 0, false, [])
  }

  /** What a call leaves behind and how it ends. */
  datatype Step<Row, T> = Step(state: State<Row>, outcome: Result<T>)

  /** `_fill_global_batches`: fetches and appends until the batch is no smaller than a global batch. */
  function Fill<Row>(z: Sizes, s: State<Row>, batch: seq<Row>): Step<Row, seq<Row>>
    requires z.global > 0
    decreases |s.source|
  {
    if |batch| >= z.global || |batch| % z.global == 0 then Step(s, Ok(batch))
    else if s.source == [] then Step(s, Err(NoMoreBatches))
    else Fill(z, s.(source := s.source[1..]), batch + s.source[0])
  }

  /** Cuts a filled batch into global batches. */
  function Deal<Row>(z: Sizes, filled: Step<Row, seq<Row>>): Step<Row, ()>
    requires z.global > 0
  {
    match filled.outcome
    case Err(e) => Step(filled.state, Err(e))
    case Ok(full) =>
      match KSplit(full, |full| / z.global)
      case Err(e) => Step(filled.state, Err(e))
      case Ok(parts) => Step(filled.state.(globals := parts), Ok(()))
  }

  /** `_get_global_batches`. */
  function Fetch<Row>(z: Sizes, s: State<Row>): Step<Row, ()> {
    if s.source == [] then Step(s, Err(NoMoreBatches))
    else
      var batch, s1 := s.source[0], s.(source := s.source[1..]);
      if z.global == 0 then Step(s1, Err(ZeroDivisionError))
      else if |batch| % z.global != 0 && !z.hasHandler then Step(s1.(globals := [batch]), Ok(()))
      else Deal(z, if |batch| % z.global != 0 then Fill(z, s1, batch) else Step(s1, Ok(batch)))
  }

  /** `_get_next_micro_batch`; None stands for the end of the micro-batch iterator. */
  function Pop<Row>(z: Sizes, s: State<Row>): Step<Row, Option<seq<Row>>> {
    if s.prefetched.Some? then Step(s.(prefetched := None), Ok(s.prefetched))
    else if s.micros == [] then Step(s, Ok(None))
    else
      var micro := s.micros[0];
      var consumed, batches := s.consumed + |micro|, s.batches + [micro];
      var s1 := s.(micros := s.micros[1..], done := false, consumed := consumed, batches := batches);
      if s1.consumed == z.global then Step(s1.(consumed := 0, done := true), Ok(Some(micro)))
      else if s1.consumed > z.global then Step(s1, Err(AssertionError))
      else Step(s1, Ok(Some(micro)))
  }

  /** Cuts the next global batch into micro batches. */
  function Refill<Row>(z: Sizes, s: State<Row>): Step<Row, ()> {
    var fetched := if s.globals == [] then Fetch(z, s) else Step(s, Ok(()));
    if fetched.outcome.Err? then fetched
    else if fetched.state.globals == [] then Step(fetched.state, Err(NoMoreBatches))
    else
      var batch, s1 := fetched.state.globals[0], fetched.state.(globals := fetched.state.globals[1..]);
      if z.micro == 0 then Step(s1, Err(ZeroDivisionError))
      else
        match KSplit(batch, |batch| / z.micro)
        case Err(e) => Step(s1, Err(e))
        case Ok(parts) => Step(s1.(micros := parts), Ok(()))
  }

  /** `__next__`. */
  function Next<Row>(z: Sizes, s: State<Row>): Step<Row, seq<Row>> {
    var first := Pop(z, s);
    if first.outcome.Err? then Step(first.state, Err(first.outcome.error))
    else if first.outcome.value.Some? then Step(first.state, Ok(first.outcome.value.value))
    else
      var refilled := Refill(z, s);
      if refilled.outcome.Err? then Step(refilled.state, Err(refilled.outcome.error))
      else
        var second := Pop(z, refilled.state);
        if second.outcome.Err? then Step(second.state, Err(second.outcome.error))
        else if second.outcome.value.None? then Step(second.state, Err(NoMoreBatches))
        else Step(second.state, Ok(second.outcome.value.value))
  }

  /** `prefetch_one_batch`. */
  function Prefetch<Row>(z: Sizes, s: State<Row>): Step<Row, seq<Row>> {
    if s.prefetched.Some? then Step(s, Ok(s.prefetched.value))
    else
      var n := Next(z, s);
      if n.outcome.Err? then n else Step(n.state.(prefetched := Some(n.outcome.value)), n.outcome)
  }

  // ---------------------------------------------------------------- no row is lost

  function Early<Row>(s: State<Row>): seq<Row> {
    if s.prefetched.Some? then s.prefetched.value else []
  }

  function Uncut<Row>(s: State<Row>): seq<Row> {
    Flatten(s.globals) + Flatten(s.source)
  }

  /** The rows still to be delivered, in order. */
  function Pending<Row>(s: State<Row>): seq<Row> {
    Early(s) + (Flatten(s.micros) + Uncut(s))
  }

  lemma {:induction false} Regroup<Row>(a: seq<Row>, b: seq<Row>, c: seq<Row>)
    ensures (a + b) + c == a + (b + c)
  {
  }

  lemma {:induction false} FillKeeps<Row>(z: Sizes, s: State<Row>, batch: seq<Row>)
    requires z.global > 0
    ensures var f := Fill(z, s, batch);
      && f.state == s.(source := f.state.source)
      && (f.outcome.Ok? ==> f.outcome.value + Flatten(f.state.source) == batch + Flatten(s.source))
      && (f.outcome.Ok? ==> |f.outcome.value| >= z.global || |f.outcome.value| % z.global == 0)
    decreases |s.source|
  {
    if !(|batch| >= z.global || |batch| % z.global == 0) && s.source != [] {
      FillKeeps(z, s.(source := s.source[1..]), batch + s.source[0]);
    }
  }

  /** The rows of a batch and of the first n batches that are fetched after it. */
  function RunningTotal<Row>(start: nat, source: seq<seq<Row>>, n: nat): nat
    requires n <= |source|
    decreases n
  {
    if n == 0 then start else RunningTotal(start + |source[0]|, source[1..], n - 1)
  }

  /** Before the n-th total the global size is not reached. */
  ghost predicate Short<Row>(start: nat, source: seq<seq<Row>>, global: nat, n: nat)
    requires n <= |source|
  {
    forall m: nat {:trigger RunningTotal(start, source, m)} :: m < n ==> 0 < RunningTotal(start, source, m) < global
  }

  /** The n-th total is the first to reach the global size, and is a multiple of it. */
  ghost predicate Lands<Row>(start: nat, source: seq<seq<Row>>, global: nat, n: nat)
    requires global > 0
  {
    n <= |source| && Short(start, source, global, n) && RunningTotal(start, source, n) % global == 0
  }

  lemma {:induction false} ShortLater<Row>(start: nat, source: seq<seq<Row>>, global: nat, n: nat)
    requires 0 < start < global && 0 < n <= |source|
    ensures Short(start, source, global, n) <==> Short(start + |source[0]|, source[1..], global, n - 1)
  {
    var more, rest := start + |source[0]|, source[1..];
    if Short(start, source, global, n) {
      forall m: nat {:trigger RunningTotal(more, rest, m)} | m < n - 1
        ensures 0 < RunningTotal(more, rest, m) < global
      {
        assert 0 < RunningTotal(start, source, m + 1) < global;
      }
    }
    if Short(more, rest, global, n - 1) {
      forall m: nat {:trigger RunningTotal(start, source, m)} | m < n
        ensures 0 < RunningTotal(start, source, m) < global
      {
        assert m > 0 ==> 0 < RunningTotal(more, rest, m - 1) < global;
      }
    }
  }

  /** Some total is a multiple of the global size, and every earlier one lies strictly between zero and it. */
  ghost predicate SomeLands<Row>(start: nat, source: seq<seq<Row>>, global: nat)
    requires global > 0
  {
    exists n: nat :: Lands(start, source, global, n)
  }

  lemma {:induction false} SomeLandsLater<Row>(start: nat, source: seq<seq<Row>>, global: nat)
    requires 0 < start < global && source != []
    ensures SomeLands(start, source, global) <==> SomeLands(start + |source[0]|, source[1..], global)
  {
    if SomeLands(start, source, global) {
      var n: nat :| Lands(start, source, global, n);
      assert RunningTotal(start, source, 0) == start;
      DivModUnique(start, 0, start, global);
      ShortLater(start, source, global, n);
      assert Lands(start + |source[0]|, source[1..], global, n - 1);
    }
    if SomeLands(start + |source[0]|, source[1..], global) {
      var n: nat :| Lands(start + |source[0]|, source[1..], global, n);
      ShortLater(start, source, global, n + 1);
      assert Lands(start, source, global, n + 1);
    }
  }

  /** Filling succeeds with a multiple of the global size. */
  predicate FillsWhole<Row>(z: Sizes, s: State<Row>, batch: seq<Row>)
    requires z.global > 0
  {
    Fill(z, s, batch).outcome.Ok? && |Fill(z, s, batch).outcome.value| % z.global == 0
  }

  /**
   It does exactly if some total of the fetched sizes is a multiple and every earlier one is below
   the global size.
  */
  lemma {:induction false} FillsWholeExactly<Row>(z: Sizes, s: State<Row>, batch: seq<Row>)
    requires z.global > 0
    ensures FillsWhole(z, s, batch) <==> SomeLands(|batch|, s.source, z.global)
    decreases |s.source|
  {
    if |batch| % z.global == 0 {
      assert Lands(|batch|, s.source, z.global, 0);
    } else if |batch| >= z.global || s.source == [] {
      LandsNowhere(|batch|, s.source, z.global);
    } else {
      var s1, more := s.(source := s.source[1..]), batch + s.source[0];
      FillsWholeExactly(z, s1, more);
      SomeLandsLater(|batch|, s.source, z.global);
      assert Fill(z, s, batch) == Fill(z, s1, more);
    }
  }

  lemma {:induction false} LandsNowhere<Row>(start: nat, source: seq<seq<Row>>, global: nat)
    requires global > 0 && start % global != 0 && (start >= global || source == [])
    ensures !SomeLands(start, source, global)
  {
    forall n: nat ensures !Lands(start, source, global, n) {
      assert RunningTotal(start, source, 0) == start;
    }
  }

  /** Filling stops at the first total that is large enough, which need not be a multiple of the global size. */
  lemma {:induction false} FillOvershoots()
    ensures Fill(Sizes(3, 4, true), Start([[3, 4, 5], [6, 7]]), [0, 1, 2]).outcome == Ok([0, 1, 2, 3, 4, 5])
  {
    var z, source, batch := Sizes(3, 4, true), [[3, 4, 5], [6, 7]], [0, 1, 2, 3, 4, 5];
    var s1 := Start(source).(source := [[6, 7]]);
    assert source[1..] == [[6, 7]] && [0, 1, 2] + source[0] == batch;
    assert Fill(z, Start(source), [0, 1, 2]) == Fill(z, s1, batch);
    assert Fill(z, s1, batch) == Step(s1, Ok(batch));
  }

  lemma {:induction false} DealKeeps<Row>(z: Sizes, s: State<Row>, full: seq<Row>)
    requires z.global > 0 && Deal(z, Step(s, Ok(full))).outcome.Ok?
    ensures var s' := Deal(z, Step(s, Ok(full))).state;
      s' == s.(globals := s'.globals) && s'.globals != [] && Flatten(s'.globals) == full
  {
    KSplitKeeps(full, |full| / z.global);
  }

  lemma {:induction false} FetchKeeps<Row>(z: Sizes, s: State<Row>)
    requires s.globals == [] && Fetch(z, s).outcome.Ok?
    ensures var s' := Fetch(z, s).state;
      && s' == s.(source := s'.source, globals := s'.globals) && s'.globals != []
      && Flatten(s'.globals) + Flatten(s'.source) == Flatten(s.source)
  {
    var batch, s1 := s.source[0], s.(source := s.source[1..]);
    if |batch| % z.global == 0 {
      DealKeeps(z, s1, batch);
    } else if z.hasHandler {
      var filled := Fill(z, s1, batch);
      FillKeeps(z, s1, batch);
      assert filled == Step(filled.state, Ok(filled.outcome.value));
      DealKeeps(z, filled.state, filled.outcome.value);
    } else {
      assert [batch][1..] == [];
    }
  }

  lemma {:induction false} RefillKeeps<Row>(z: Sizes, s: State<Row>)
    requires s.micros == [] && s.prefetched.None? && Refill(z, s).outcome.Ok?
    ensures var s' := Refill(z, s).state;
      && s' == s.(source := s'.source, globals := s'.globals, micros := s'.micros) && s'.micros != []
      && Flatten(s'.micros) + Uncut(s') == Uncut(s)
  {
    var s1 := s;
    if s.globals == [] {
      FetchKeeps(z, s);
      s1 := Fetch(z, s).state;
    }
    var batch := s1.globals[0];
    KSplitKeeps(batch, |batch| / z.micro);
    Regroup(batch, Flatten(s1.globals[1..]), Flatten(s1.source));
  }

  lemma {:induction false} PopKeeps<Row>(z: Sizes, s: State<Row>)
    requires Pop(z, s).outcome.Ok? && (s.prefetched.Some? || s.micros != [])
    ensures var p := Pop(z, s);
      && p.outcome.value.Some? && p.state.prefetched.None?
      && Pending(s) == p.outcome.value.value + Pending(p.state)
  {
    var s' := Pop(z, s).state;
    if s.prefetched.None? {
      Regroup(s.micros[0], Flatten(s.micros[1..]), Uncut(s));
      assert Uncut(s') == Uncut(s);
    }
    assert Pending(s') == Flatten(s'.micros) + Uncut(s');
  }

  /** A delivered batch is the front of the pending rows. */
  lemma {:induction false} NextKeeps<Row>(z: Sizes, s: State<Row>)
    requires Next(z, s).outcome.Ok?
    ensures Pending(s) == Next(z, s).outcome.value + Pending(Next(z, s).state) && Next(z, s).state.prefetched.None?
  {
    if s.prefetched.Some? || s.micros != [] {
      PopKeeps(z, s);
    } else {
      RefillKeeps(z, s);
      PopKeeps(z, Refill(z, s).state);
    }
  }

  lemma {:induction false} HeldBack<Row>(s: State<Row>, batch: seq<Row>)
    requires s.prefetched.None?
    ensures Pending(s.(prefetched := Some(batch))) == batch + Pending(s)
  {
    assert Pending(s) == Flatten(s.micros) + Uncut(s);
  }

  /** Taking a batch early leaves the pending rows as they are. */
  lemma {:induction false} PrefetchKeeps<Row>(z: Sizes, s: State<Row>)
    requires Prefetch(z, s).outcome.Ok?
    ensures Pending(Prefetch(z, s).state) == Pending(s)
  {
    if s.prefetched.None? {
      NextKeeps(z, s);
      HeldBack(Next(z, s).state, Next(z, s).outcome.value);
    }
  }

  // ---------------------------------------------------------------- runs

  datatype Call = CallNext | CallPrefetch

  /** A run that has not failed: its state and the batches it delivered. */
  datatype Run<Row> = Run(state: State<Row>, delivered: seq<seq<Row>>)

  function RunCall<Row>(z: Sizes, r: Run<Row>, call: Call): Result<Run<Row>> {
    match call
    case CallNext =>
      var n := Next(z, r.state);
      if n.outcome.Err? then Err(n.outcome.error) else Ok(Run(n.state, r.delivered + [n.outcome.value]))
    case CallPrefetch =>
      var p := Prefetch(z, r.state);
      if p.outcome.Err? then Err(p.outcome.error) else Ok(Run(p.state, r.delivered))
  }

  function RunFrom<Row>(z: Sizes, first: Run<Row>, calls: seq<Call>): Result<Run<Row>> {
    if calls == [] then Ok(first)
    else
      match RunFrom(z, first, calls[..|calls| - 1])
      case Err(e) => Err(e)
      case Ok(r) => RunCall(z, r, calls[|calls| - 1])
  }

  function RunCalls<Row>(z: Sizes, source: seq<seq<Row>>, calls: seq<Call>): Result<Run<Row>> {
    RunFrom(z, Run(Start(source), []), calls)
  }

  /** Whatever the interleaving, delivered rows and pending rows are the fetched rows in order. */
  lemma {:induction false} RowsConserved<Row>(z: Sizes, source: seq<seq<Row>>, calls: seq<Call>)
    requires RunCalls(z, source, calls).Ok?
    ensures var r := RunCalls(z, source, calls).value;
      Flatten(r.delivered) + Pending(r.state) == Flatten(source)
  {
    if calls != [] {
      RowsConserved(z, source, calls[..|calls| - 1]);
      var before := RunCalls(z, source, calls[..|calls| - 1]).value;
      if calls[|calls| - 1].CallNext? {
        var n := Next(z, before.state);
        NextKeeps(z, before.state);
        FlattenPush(before.delivered, n.outcome.value);
        Regroup(Flatten(before.delivered), n.outcome.value, Pending(n.state));
      } else {
        PrefetchKeeps(z, before.state);
      }
    }
  }

  /** Only the calls that deliver. */
  function WithoutPrefetch(calls: seq<Call>): seq<Call> {
    if calls == [] then []
    else WithoutPrefetch(calls[..|calls| - 1]) + if calls[|calls| - 1].CallPrefetch? then [] else [CallNext]
  }

  /** Taking a batch early and then delivering it is delivering it. */
  lemma {:induction false} PrefetchThenNext<Row>(z: Sizes, s: State<Row>)
    requires s.prefetched.None? && Prefetch(z, s).outcome.Ok?
    ensures Next(z, Prefetch(z, s).state) == Next(z, s)
  {
    NextKeeps(z, s);
  }

  /**
   Prefetching is transparent: the same batches are delivered as without it, and the state is the
   same, possibly with the next batch taken out early.
  */
  lemma {:induction false} PrefetchIsTransparent<Row>(z: Sizes, source: seq<seq<Row>>, calls: seq<Call>)
    requires RunCalls(z, source, calls).Ok?
    ensures var plain := RunCalls(z, source, WithoutPrefetch(calls));
      var r := RunCalls(z, source, calls).value;
      && plain.Ok? && plain.value.delivered == r.delivered && plain.value.state.prefetched.None?
      && (r.state == plain.value.state
          || (Prefetch(z, plain.value.state).outcome.Ok? && r.state == Prefetch(z, plain.value.state).state))
  {
    if calls != [] {
      var front, last := calls[..|calls| - 1], calls[|calls| - 1];
      PrefetchIsTransparent(z, source, front);
      var plain, r := RunCalls(z, source, WithoutPrefetch(front)).value, RunCalls(z, source, front).value;
      if last.CallNext? {
        if r.state != plain.state {
          PrefetchThenNext(z, plain.state);
        }
        NextKeeps(z, plain.state);
        assert (WithoutPrefetch(front) + [CallNext])[..|WithoutPrefetch(front)|] == WithoutPrefetch(front);
      } else {
        assert WithoutPrefetch(calls) == WithoutPrefetch(front);
      }
    }
  }

  lemma {:induction false} RunPush<Row>(z: Sizes, source: seq<seq<Row>>, calls: seq<Call>, call: Call)
    ensures RunCalls(z, source, calls + [call]) ==
      match RunCalls(z, source, calls)
      case Err(e) => Err(e)
      case Ok(r) => RunCall(z, r, call)
  {
    assert (calls + [call])[..|calls|] == calls;
  }

  /** What plain iteration meets on the calls that deliver, or else on one further delivery. */
  function PlainError<Row>(z: Sizes, source: seq<seq<Row>>, calls: seq<Call>): Option<Error> {
    var plain := WithoutPrefetch(calls);
    match RunCalls(z, source, plain)
    case Err(e) => Some(e)
    case Ok(_) =>
      match RunCalls(z, source, plain + [CallNext])
      case Err(e) => Some(e)
      case Ok(_) => None
  }

  /** A call that fails beside plain iteration fails like its next delivery. */
  lemma {:induction false} CallFailsAhead<Row>(z: Sizes, r: Run<Row>, plain: Run<Row>, call: Call)
    requires RunCall(z, r, call).Err? && plain.state.prefetched.None?
    requires
      || r.state == plain.state
      || (Prefetch(z, plain.state).outcome.Ok? && r.state == Prefetch(z, plain.state).state)
    ensures RunCall(z, plain, CallNext) == Err(RunCall(z, r, call).error)
  {
  }

  /** A run with prefetches fails only where plain iteration, or one further delivery, fails, and with that error. */
  lemma {:induction false} PrefetchFailsOnlyAhead<Row>(z: Sizes, source: seq<seq<Row>>, calls: seq<Call>)
    requires RunCalls(z, source, calls).Err?
    ensures PlainError(z, source, calls) == Some(RunCalls(z, source, calls).error)
  {
    if calls != [] {
      var front, last := calls[..|calls| - 1], calls[|calls| - 1];
      var plain := WithoutPrefetch(front);
      assert calls == front + [last];
      RunPush(z, source, plain, CallNext);
      if RunCalls(z, source, front).Err? {
        PrefetchFailsOnlyAhead(z, source, front);
        RunPush(z, source, plain + [CallNext], CallNext);
      } else {
        PrefetchIsTransparent(z, source, front);
        CallFailsAhead(z, RunCalls(z, source, front).value, RunCalls(z, source, plain).value, last);
      }
      assert last.CallPrefetch? ==> WithoutPrefetch(calls) == plain;
    }
  }

  // ---------------------------------------------------------------- the batches kept for later

  /** Every micro batch is kept when it is taken out, be it early or not. */
  lemma {:induction false} NextBatches<Row>(z: Sizes, s: State<Row>)
    requires Next(z, s).outcome.Ok?
    ensures Next(z, s).state.batches == if s.prefetched.Some? then s.batches else s.batches + [Next(z, s).outcome.value]
    ensures s.prefetched.Some? ==> Next(z, s).outcome.value == s.prefetched.value
    ensures Next(z, s).state.prefetched.None?
  {
    if s.prefetched.None? && s.micros == [] {
      RefillKeeps(z, s);
      assert Refill(z, s).state.batches == s.batches;
    }
  }

  /** Rows that have been taken out of the iterator, in order. */
  function TakenRows<Row>(r: Run<Row>): seq<Row> {
    Flatten(r.delivered) + Early(r.state)
  }

  lemma {:induction false} CallKeepsBatches<Row>(z: Sizes, r: Run<Row>, call: Call) returns (more: seq<Row>)
    requires RunCall(z, r, call).Ok?
    ensures TakenRows(RunCall(z, r, call).value) == TakenRows(r) + more
    ensures Flatten(RunCall(z, r, call).value.state.batches) == Flatten(r.state.batches) + more
  {
    if call.CallPrefetch? && r.state.prefetched.Some? {
      more := [];
    } else {
      NextBatches(z, r.state);
      var batch := Next(z, r.state).outcome.value;
      FlattenPush(r.delivered, batch);
      FlattenPush(r.state.batches, batch);
      more := if r.state.prefetched.Some? then [] else batch;
    }
  }

  /** The kept batches hold the rows taken since they were last handed out, however the calls were interleaved. */
  lemma {:induction false} BatchesAreTaken<Row>(z: Sizes, first: Run<Row>, calls: seq<Call>)
    requires first.state.batches == [] && RunFrom(z, first, calls).Ok?
    ensures var r := RunFrom(z, first, calls).value;
      TakenRows(first) + Flatten(r.state.batches) == TakenRows(r)
  {
    if calls != [] {
      var front := calls[..|calls| - 1];
      BatchesAreTaken(z, first, front);
      var before := RunFrom(z, first, front).value;
      var more := CallKeepsBatches(z, before, calls[|calls| - 1]);
      Regroup(TakenRows(first), Flatten(before.state.batches), more);
    }
  }

  // ---------------------------------------------------------------- global batches

  /** Rows taken so far, whether delivered or held back. */
  function Taken<Row>(r: Run<Row>): nat {
    |Flatten(r.delivered)| + |Early(r.state)|
  }

  ghost predicate NonEmpty<Row>(batches: seq<seq<Row>>) {
    forall i :: 0 <= i < |batches| ==> |batches[i]| > 0
  }

  /** The counter is the position in the current global batch, and the flag marks its end. */
  ghost predicate Counts<Row>(z: Sizes, s: State<Row>, taken: nat)
    requires z.global > 0
  {
    NonEmpty(s.micros) && s.consumed == taken % z.global && (s.done <==> taken > 0 && taken % z.global == 0)
  }

  lemma {:induction false} AddInside(taken: nat, more: nat, global: nat)
    requires global > 0 && taken % global + more <= global
    ensures (taken + more) % global == if taken % global + more == global then 0 else taken % global + more
  {
    var q, c := taken / global, taken % global;
    assert taken == q * global + c;
    if c + more == global {
      SuccTimes(q, global);
      DivModUnique(taken + more, q + 1, 0, global);
    } else {
      DivModUnique(taken + more, q, c + more, global);
    }
  }

  lemma {:induction false} PopCounts<Row>(z: Sizes, s: State<Row>, taken: nat)
    requires z.global > 0 && Counts(z, s, taken) && s.prefetched.None? && s.micros != [] && Pop(z, s).outcome.Ok?
    ensures Counts(z, Pop(z, s).state, taken + |Pop(z, s).outcome.value.value|)
  {
    AddInside(taken, |s.micros[0]|, z.global);
  }

  /** Micro batches have at least the configured number of rows. */
  lemma {:induction false} PartSize(n: nat, micro: nat)
    requires micro > 0 && n / micro > 0 && n % (n / micro) == 0
    ensures n / (n / micro) >= micro
  {
    var k := n / micro;
    assert n == k * micro + n % micro;
    var size := n / k;
    assert n == k * size;
    if size < micro {
      MulMono(size + 1, micro, k);
      SuccTimes(size, k);
    }
  }

  lemma {:induction false} CutNonEmpty<Row>(batch: seq<Row>, micro: nat)
    requires micro > 0 && KSplit(batch, |batch| / micro).Ok?
    ensures NonEmpty(KSplit(batch, |batch| / micro).value)
  {
    PartSize(|batch|, micro);
    KSplitKeeps(batch, |batch| / micro);
  }

  lemma {:induction false} RefillCounts<Row>(z: Sizes, s: State<Row>, taken: nat)
    requires z.global > 0 && Counts(z, s, taken) && s.prefetched.None? && s.micros == [] && Refill(z, s).outcome.Ok?
    ensures Counts(z, Refill(z, s).state, taken)
  {
    RefillKeeps(z, s);
    var s1 := if s.globals == [] then Fetch(z, s).state else s;
    CutNonEmpty(s1.globals[0], z.micro);
  }

  /** Delivering moves the counters by the rows that were not yet taken early. */
  lemma {:induction false} NextCounts<Row>(z: Sizes, s: State<Row>, taken: nat)
    requires z.global > 0 && Counts(z, s, taken) && Next(z, s).outcome.Ok?
    ensures Counts(z, Next(z, s).state, if s.prefetched.Some? then taken else taken + |Next(z, s).outcome.value|)
  {
    if s.prefetched.None? {
      if s.micros == [] {
        RefillKeeps(z, s);
        RefillCounts(z, s, taken);
        PopCounts(z, Refill(z, s).state, taken);
      } else {
        PopCounts(z, s, taken);
      }
    }
  }

  lemma {:induction false} NextTaken<Row>(z: Sizes, r: Run<Row>)
    requires Next(z, r.state).outcome.Ok?
    ensures var n := Next(z, r.state);
      Taken(Run(n.state, r.delivered + [n.outcome.value]))
        == if r.state.prefetched.Some? then Taken(r) else Taken(r) + |n.outcome.value|
  {
    NextKeeps(z, r.state);
    FlattenPush(r.delivered, Next(z, r.state).outcome.value);
  }

  lemma {:induction false} PrefetchCounts<Row>(z: Sizes, r: Run<Row>)
    requires z.global > 0 && Counts(z, r.state, Taken(r)) && Prefetch(z, r.state).outcome.Ok?
    ensures var r' := Run(Prefetch(z, r.state).state, r.delivered);
      Counts(z, r'.state, Taken(r'))
  {
    if r.state.prefetched.None? {
      NextCounts(z, r.state, Taken(r));
    }
  }

  lemma {:induction false} RunCallCounts<Row>(z: Sizes, r: Run<Row>, call: Call)
    requires z.global > 0 && Counts(z, r.state, Taken(r)) && RunCall(z, r, call).Ok?
    ensures var after := RunCall(z, r, call).value;
      Counts(z, after.state, Taken(after))
  {
    if call.CallNext? {
      NextCounts(z, r.state, Taken(r));
      NextTaken(z, r);
    } else {
      PrefetchCounts(z, r);
    }
  }

  /** `global_batch_done` holds exactly when the rows taken so far fill whole global batches. */
  lemma {:induction false} DoneExactly<Row>(z: Sizes, source: seq<seq<Row>>, calls: seq<Call>)
    requires z.global > 0 && RunCalls(z, source, calls).Ok?
    ensures var r := RunCalls(z, source, calls).value;
      && Counts(z, r.state, Taken(r))
      && (r.state.done <==> Taken(r) > 0 && Taken(r) % z.global == 0)
  {
    if calls != [] {
      DoneExactly(z, source, calls[..|calls| - 1]);
      RunCallCounts(z, RunCalls(z, source, calls[..|calls| - 1]).value, calls[|calls| - 1]);
    }
  }

  // ---------------------------------------------------------------- compatible sizes

  ghost predicate MultipleOf(n: nat, k: nat)
    requires k > 0
  {
    n > 0 && n % k == 0
  }

  ghost predicate AllMultiples<Row>(batches: seq<seq<Row>>, k: nat)
    requires k > 0
  {
    forall i :: 0 <= i < |batches| ==> MultipleOf(|batches[i]|, k)
  }

  ghost predicate AllSized<Row>(batches: seq<seq<Row>>, k: nat) {
    forall i :: 0 <= i < |batches| ==> |batches[i]| == k
  }

  ghost predicate SizesFit(z: Sizes) {
    z.micro > 0 && MultipleOf(z.global, z.micro)
  }

  /**
   Fetched batches, put one after the other, end where global batches end: `carry` rows are waiting to
   be filled up, and the running total never passes a multiple of the global size without meeting it.
  */
  predicate LinesUp<Row>(carry: nat, source: seq<seq<Row>>, global: nat)
    requires global > 0
    decreases |source|
  {
    if source == [] then carry == 0
    else
      var total := carry + |source[0]|;
      if total % global == 0 then total > 0 && LinesUp(0, source[1..], global)
      else total < global && LinesUp(total, source[1..], global)
  }

  /** What the fetch function may still return. */
  ghost predicate SourceFits<Row>(z: Sizes, source: seq<seq<Row>>)
    requires SizesFit(z)
  {
    if z.hasHandler then LinesUp(0, source, z.global) else AllMultiples(source, z.micro)
  }

  /**
   Every batch holds whole micro batches; with a handler registered, fetched batches may have any sizes
   that line up with the global batches.
  */
  ghost predicate Fits<Row>(z: Sizes, s: State<Row>)
    requires SizesFit(z)
  {
    && s.consumed % z.micro == 0 && s.consumed < z.global && AllSized(s.micros, z.micro)
    && AllMultiples(s.globals, z.micro) && SourceFits(z, s.source)
    && (s.prefetched.Some? ==> |s.prefetched.value| == z.micro)
  }

  /** Batches that line up are filled to whole global batches, and what is left lines up again. */
  lemma {:induction false} FillLinesUp<Row>(z: Sizes, s: State<Row>, batch: seq<Row>)
    requires z.global > 0 && 0 < |batch| < z.global && LinesUp(|batch|, s.source, z.global)
    ensures var f := Fill(z, s, batch);
      && f.outcome.Ok? && MultipleOf(|f.outcome.value|, z.global)
      && f.state == s.(source := f.state.source) && LinesUp(0, f.state.source, z.global)
    decreases |s.source|
  {
    DivModUnique(|batch|, 0, |batch|, z.global);
    var s1, more := s.(source := s.source[1..]), batch + s.source[0];
    if |more| % z.global == 0 {
      assert Fill(z, s1, more) == Step(s1, Ok(more));
    } else {
      FillLinesUp(z, s1, more);
    }
  }

  /** Splitting a whole number of units gives units. */
  lemma {:induction false} SplitUnits<Row>(batch: seq<Row>, unit: nat)
    requires unit > 0 && MultipleOf(|batch|, unit)
    ensures KSplit(batch, |batch| / unit).Ok? && KSplit(batch, |batch| / unit).value != []
    ensures AllSized(KSplit(batch, |batch| / unit).value, unit)
  {
    var n := |batch|;
    var k := n / unit;
    assert n == k * unit && k > 0;
    DivModUnique(n, unit, 0, k);
    KSplitKeeps(batch, k);
  }

  lemma {:induction false} GlobalsFit<Row>(z: Sizes, batch: seq<Row>)
    requires SizesFit(z) && MultipleOf(|batch|, z.global)
    ensures var parts := KSplit(batch, |batch| / z.global);
      parts.Ok? && parts.value != [] && AllMultiples(parts.value, z.micro)
  {
    SplitUnits(batch, z.global);
  }

  lemma {:induction false} DealFits<Row>(z: Sizes, s: State<Row>, full: seq<Row>)
    requires SizesFit(z) && Fits(z, s) && MultipleOf(|full|, z.global)
    ensures var d := Deal(z, Step(s, Ok(full)));
      d.outcome.Ok? && Fits(z, d.state) && d.state.globals != [] && d.state == s.(globals := d.state.globals)
  {
    GlobalsFit(z, full);
  }

  lemma {:induction false} SourceTail<Row>(z: Sizes, s: State<Row>)
    requires SizesFit(z) && Fits(z, s) && s.source != []
    ensures |s.source[0]| % z.global == 0 ==> |s.source[0]| > 0
    ensures !z.hasHandler ==> MultipleOf(|s.source[0]|, z.micro)
    ensures |s.source[0]| % z.global == 0 || !z.hasHandler ==> SourceFits(z, s.source[1..])
    ensures |s.source[0]| % z.global != 0 && z.hasHandler ==>
      0 < |s.source[0]| < z.global && LinesUp(|s.source[0]|, s.source[1..], z.global)
  {
    assert !z.hasHandler ==> MultipleOf(|s.source[0]|, z.micro);
    if |s.source[0]| == 0 {
      DivModUnique(0, 0, 0, z.global);
    }
  }

  lemma {:induction false} FetchFits<Row>(z: Sizes, s: State<Row>)
    requires SizesFit(z) && Fits(z, s) && s.globals == [] && s.source != []
    ensures Fetch(z, s).outcome.Ok? && Fits(z, Fetch(z, s).state) && Fetch(z, s).state.globals != []
    ensures Fetch(z, s).state == s.(source := Fetch(z, s).state.source, globals := Fetch(z, s).state.globals)
  {
    var batch, s1 := s.source[0], s.(source := s.source[1..]);
    SourceTail(z, s);
    if |batch| % z.global == 0 {
      DealFits(z, s1, batch);
    } else if z.hasHandler {
      FillLinesUp(z, s1, batch);
      var filled := Fill(z, s1, batch);
      assert filled == Step(filled.state, Ok(filled.outcome.value));
      DealFits(z, filled.state, filled.outcome.value);
    }
  }

  lemma {:induction false} RefillFits<Row>(z: Sizes, s: State<Row>)
    requires SizesFit(z) && Fits(z, s) && s.micros == [] && (s.globals != [] || s.source != [])
    ensures Refill(z, s).outcome.Ok? && Fits(z, Refill(z, s).state) && Refill(z, s).state.micros != []
    ensures Refill(z, s).state.prefetched == s.prefetched
  {
    var s1 := s;
    if s.globals == [] {
      FetchFits(z, s);
      s1 := Fetch(z, s).state;
    }
    SplitUnits(s1.globals[0], z.micro);
  }

  lemma {:induction false} NextMultiple(consumed: nat, global: nat, micro: nat)
    requires micro > 0 && consumed % micro == 0 && consumed < global && MultipleOf(global, micro)
    ensures consumed + micro <= global && (consumed + micro) % micro == 0
  {
    var a, b := consumed / micro, global / micro;
    assert consumed == a * micro && global == b * micro;
    if a >= b {
      MulMono(b, a, micro);
    }
    SuccTimes(a, micro);
    MulMono(a + 1, b, micro);
    DivModUnique(consumed + micro, a + 1, 0, micro);
  }

  lemma {:induction false} PopFits<Row>(z: Sizes, s: State<Row>)
    requires SizesFit(z) && Fits(z, s) && s.prefetched.None? && s.micros != []
    ensures var p := Pop(z, s);
      && p.outcome.Ok? && p.outcome.value.Some? && |p.outcome.value.value| == z.micro && Fits(z, p.state)
  {
    NextMultiple(s.consumed, z.global, z.micro);
  }

  /** With compatible sizes the iterator fails only when nothing is left, and delivers whole micro batches. */
  lemma {:induction false} NextSucceeds<Row>(z: Sizes, s: State<Row>)
    requires SizesFit(z) && Fits(z, s)
    ensures s.prefetched.None? && s.micros == [] && s.globals == [] && s.source == [] ==>
      Next(z, s).outcome == Err(NoMoreBatches)
    ensures !(s.prefetched.None? && s.micros == [] && s.globals == [] && s.source == []) ==>
      Next(z, s).outcome.Ok? && |Next(z, s).outcome.value| == z.micro && Fits(z, Next(z, s).state)
  {
    if s.prefetched.None? {
      if s.micros != [] {
        PopFits(z, s);
      } else if s.globals != [] || s.source != [] {
        RefillFits(z, s);
        PopFits(z, Refill(z, s).state);
      }
    }
  }

  lemma {:induction false} FirstHasRows<Row>(z: Sizes, s: State<Row>)
    requires SizesFit(z) && Fits(z, s)
    ensures s.source != [] ==> |s.source[0]| > 0
    ensures s.globals != [] ==> |s.globals[0]| > 0
    ensures s.micros != [] ==> |s.micros[0]| > 0
  {
    assert s.globals != [] ==> MultipleOf(|s.globals[0]|, z.micro);
    assert s.source != [] && !z.hasHandler ==> MultipleOf(|s.source[0]|, z.micro);
    if s.source != [] && z.hasHandler && |s.source[0]| == 0 {
      DivModUnique(0, 0, 0, z.global);
    }
  }

  lemma {:induction false} RowsFlatten<Row>(batches: seq<seq<Row>>)
    requires batches != [] ==> |batches[0]| > 0
    ensures Flatten(batches) == [] <==> batches == []
  {
  }

  lemma {:induction false} PendingEmpty<Row>(z: Sizes, s: State<Row>)
    requires SizesFit(z) && Fits(z, s)
    ensures Pending(s) == [] <==> s.prefetched.None? && s.micros == [] && s.globals == [] && s.source == []
  {
    FirstHasRows(z, s);
    NoPending(s, z.micro);
  }

  lemma {:induction false} NoPending<Row>(s: State<Row>, micro: nat)
    requires s.prefetched.Some? ==> |s.prefetched.value| == micro
    requires micro > 0 && (s.source != [] ==> |s.source[0]| > 0)
    requires (s.globals != [] ==> |s.globals[0]| > 0) && (s.micros != [] ==> |s.micros[0]| > 0)
    ensures Pending(s) == [] <==> s.prefetched.None? && s.micros == [] && s.globals == [] && s.source == []
  {
    RowsFlatten(s.source);
    RowsFlatten(s.globals);
    RowsFlatten(s.micros);
    assert |Pending(s)| == |Early(s)| + |Flatten(s.micros)| + |Flatten(s.globals)| + |Flatten(s.source)|;
  }

  function Deliveries(n: nat): (r: seq<Call>)
    ensures |r| == n
  {
    seq(n, _ => CallNext)
  }

  /** With compatible sizes exactly the whole micro batches of the fetched rows can be delivered. */
  lemma {:induction false} DeliversExactly<Row>(z: Sizes, source: seq<seq<Row>>, n: nat)
    requires SizesFit(z) && SourceFits(z, source)
    ensures var run := RunCalls(z, source, Deliveries(n));
      && (run.Ok? <==> n * z.micro <= |Flatten(source)|)
      && (run.Ok? ==> Fits(z, run.value.state) && |Flatten(run.value.delivered)| == n * z.micro)
      && (run.Err? ==> run.error == NoMoreBatches)
  {
    if n > 0 {
      DeliversExactly(z, source, n - 1);
      assert Deliveries(n) == Deliveries(n - 1) + [CallNext];
      RunPush(z, source, Deliveries(n - 1), CallNext);
      SuccTimes(n - 1, z.micro);
      if RunCalls(z, source, Deliveries(n - 1)).Ok? {
        var before := RunCalls(z, source, Deliveries(n - 1)).value;
        RowsConserved(z, source, Deliveries(n - 1));
        PendingEmpty(z, before.state);
        NextSucceeds(z, before.state);
        if Pending(before.state) != [] {
          NextKeeps(z, before.state);
          FlattenPush(before.delivered, Next(z, before.state).outcome.value);
        }
      }
    }
  }

  // ---------------------------------------------------------------- the class

  /** `merge_batches`: the rows of all batches, in order. */
  method Merge<Row>(batches: seq<seq<Row>>) returns (r: seq<Row>)
    ensures r == Flatten(batches)
  {
    r := [];
    for i := 0 to |batches|
      invariant r == Flatten(batches[..i])
    {
      assert batches[..i + 1] == batches[..i] + [batches[i]];
      FlattenPush(batches[..i], batches[i]);
      r := r + batches[i];
    }
    assert batches[..|batches|] == batches;
  }

  class BatchResizingIterator<Row> {
    const microBatchSize: nat
    const numGlobalBatches: nat
    var globalBatchSize: nat
    var hasHandler: bool
    /** What the fetch function will still return. */
    var source: seq<seq<Row>>
    var globalBatchIter: seq<seq<Row>>
    var microBatchIter: seq<seq<Row>>
    var prefetchMicroBatch: Option<seq<Row>>
    var consumedBatchSize: nat
    var globalBatchDone: bool
    var batches: seq<seq<Row>>

    ghost function View(): State<Row>
      reads this
    {
      State(source, globalBatchIter, microBatchIter, prefetchMicroBatch, consumedBatchSize, globalBatchDone, batches)
    }

    ghost function Config(): Sizes
      reads this`globalBatchSize, this`hasHandler
    {
      Sizes(microBatchSize, globalBatchSize, hasHandler)
    }

    constructor (source: seq<seq<Row>>, microBatchSize: nat, totalBatchSize: nat, numGlobalBatches: nat)
      requires numGlobalBatches > 0
      ensures View() == Start(source) && Config() == Sizes(microBatchSize, totalBatchSize / numGlobalBatches, false)
      ensures this.numGlobalBatches == numGlobalBatches
    {
      this.microBatchSize, this.numGlobalBatches := microBatchSize, numGlobalBatches;
      globalBatchSize, hasHandler := totalBatchSize / numGlobalBatches, false;
      this.source, globalBatchIter, microBatchIter, prefetchMicroBatch := source, [], [], None;
      consumedBatchSize, globalBatchDone, batches := 0, false, [];
    }

    method RegisterGlobalBatchHandler()
      modifies this`hasHandler
      ensures hasHandler
    {
      hasHandler := true;
    }

    method ResetTotalBatchSize(totalBatchSize: nat)
      requires numGlobalBatches > 0
      modifies this`globalBatchSize
      ensures globalBatchSize == totalBatchSize / numGlobalBatches
    {
      globalBatchSize := totalBatchSize / numGlobalBatches;
    }

    method CheckFinishedGlobalBatch() returns (r: Result<()>)
      ensures r == if View().done then Ok(()) else Err(AssertionError)
    {
      r := if globalBatchDone then Ok(()) else Err(AssertionError);
    }

    /** Hands out the rows of all batches taken since the last call, early ones included. */
    method GetAllBatches() returns (r: seq<Row>)
      modifies this`batches
      ensures r == Flatten(old(batches)) && View() == old(View()).(batches := [])
    {
      r := Merge(batches);
      batches := [];
    }

    method FillGlobalBatches(current: seq<Row>) returns (r: Result<seq<Row>>)
      requires globalBatchSize > 0
      modifies this`source
      ensures Fill(Config(), old(View()), current) == Step(View(), r)
    {
      var batch := current;
      while |batch| < globalBatchSize && |batch| % globalBatchSize != 0
        invariant View() == old(View()).(source := source)
        invariant Fill(Config(), old(View()), current) == Fill(Config(), View(), batch)
        decreases |source|
      {
        if source == [] {
          return Err(NoMoreBatches);
        }
        batch, source := batch + source[0], source[1..];
      }
      r := Ok(batch);
    }

    method GetGlobalBatches() returns (r: Result<()>)
      modifies this`source, this`globalBatchIter
      ensures Fetch(Config(), old(View())) == Step(View(), r)
    {
      if source == [] {
        return Err(NoMoreBatches);
      }
      var batch := source[0];
      source := source[1..];
      if globalBatchSize == 0 {
        return Err(ZeroDivisionError);
      }
      if |batch| % globalBatchSize != 0 {
        if !hasHandler {
          globalBatchIter := [batch];
          return Ok(());
        }
        var filled := FillGlobalBatches(batch);
        if filled.Err? {
          return Err(filled.error);
        }
        batch := filled.value;
      }
      r := DealGlobalBatches(batch);
    }

    method DealGlobalBatches(full: seq<Row>) returns (r: Result<()>)
      requires globalBatchSize > 0
      modifies this`globalBatchIter
      ensures Deal(Config(), Step(old(View()), Ok(full))) == Step(View(), r)
    {
      var parts := KSplit(full, |full| / globalBatchSize);
      if parts.Err? {
        return Err(parts.error);
      }
      globalBatchIter := parts.value;
      r := Ok(());
    }

    method GetNextMicroBatch() returns (r: Result<Option<seq<Row>>>)
      modifies this
      ensures Pop(old(Config()), old(View())) == Step(View(), r) && Config() == old(Config())
    {
      if prefetchMicroBatch.Some? {
        r := Ok(prefetchMicroBatch);
        prefetchMicroBatch := None;
        return;
      }
      if microBatchIter == [] {
        return Ok(None);
      }
      var micro := microBatchIter[0];
      microBatchIter, globalBatchDone := microBatchIter[1..], false;
      consumedBatchSize, batches := consumedBatchSize + |micro|, batches + [micro];
      if consumedBatchSize == globalBatchSize {
        consumedBatchSize, globalBatchDone := 0, true;
      } else if consumedBatchSize > globalBatchSize {
        return Err(AssertionError);
      }
      r := Ok(Some(micro));
    }

    method CutNextGlobalBatch() returns (r: Result<()>)
      modifies this
      ensures Refill(old(Config()), old(View())) == Step(View(), r) && Config() == old(Config())
    {
      if globalBatchIter == [] {
        r := GetGlobalBatches();
        if r.Err? {
          return;
        }
        if globalBatchIter == [] {
          return Err(NoMoreBatches);
        }
      }
      var batch := globalBatchIter[0];
      globalBatchIter := globalBatchIter[1..];
      if microBatchSize == 0 {
        return Err(ZeroDivisionError);
      }
      var parts := KSplit(batch, |batch| / microBatchSize);
      if parts.Err? {
        return Err(parts.error);
      }
      microBatchIter := parts.value;
      r := Ok(());
    }

    method GetNext() returns (r: Result<seq<Row>>)
      modifies this
      ensures Next(old(Config()), old(View())) == Step(View(), r) && Config() == old(Config())
    {
      var first := GetNextMicroBatch();
      if first.Err? {
        return Err(first.error);
      }
      if first.value.Some? {
        return Ok(first.value.value);
      }
      var cut := CutNextGlobalBatch();
      if cut.Err? {
        return Err(cut.error);
      }
      var second := GetNextMicroBatch();
      if second.Err? {
        return Err(second.error);
      }
      r := if second.value.None? then Err(NoMoreBatches) else Ok(second.value.value);
    }

    method PrefetchOneBatch() returns (r: Result<seq<Row>>)
      modifies this
      ensures Prefetch(old(Config()), old(View())) == Step(View(), r) && Config() == old(Config())
    {
      if prefetchMicroBatch.None? {
        r := GetNext();
        if r.Err? {
          return;
        }
        prefetchMicroBatch := Some(r.value);
      }
      r := Ok(prefetchMicroBatch.value);
    }
  }
}
