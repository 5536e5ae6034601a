/**
 The sizes at which the batch-resizing iterator goes through. Whether every fetched row is delivered
 depends on the numbers of rows alone: each batch, filled up if a handler asks for it, must split
 evenly into global batches and those into micro batches, and no micro batch may straddle a multiple
 of the global batch size.
*/
module IteratorSizes {
  import opened Sequences
  import opened Outcomes
  import opened BatchIterators

  // ---------------------------------------------------------------- the condition on sizes

  function Lengths<Row>(batches: seq<seq<Row>>): (r: seq<nat>)
    ensures |r| == |batches| && forall i :: 0 <= i < |r| ==> r[i] == |batches[i]|
  {
    seq(|batches|, i requires 0 <= i < |batches| => |batches[i]|)
  }

  predicate SplitsEvenly(rows: nat, parts: nat) {
    parts > 0 && rows % parts == 0
  }

  /** The row at which the j-th of several batches of one size starts. */
  function Position(taken: nat, size: nat, j: nat): nat {
    SuccTimes(j, size);
    taken + j * size
  }

  /** None of `count` batches of one size, taken one after the other, straddles a multiple of the global size. */
  ghost predicate Inside(taken: nat, size: nat, count: nat, global: nat)
    requires global > 0
  {
    forall j: nat :: j < count ==> Position(taken, size, j) % global + size <= global
  }

  /** A global batch of `rows` rows splits evenly into micro batches, none of which straddles. */
  ghost predicate GlobalFits(z: Sizes, rows: nat, taken: nat)
    requires z.micro > 0 && z.global > 0
  {
    var k := rows / z.micro;
    SplitsEvenly(rows, k) && Inside(taken, rows / k, k, z.global)
  }

  ghost predicate GlobalsFitFrom(z: Sizes, rows: nat, taken: nat, count: nat)
    requires z.micro > 0 && z.global > 0
  {
    forall i: nat :: i < count ==> GlobalFits(z, rows, Position(taken, rows, i))
  }

  /** Without a handler a batch that is no multiple of the global size counts as one global batch. */
  function GlobalCount(z: Sizes, rows: nat): nat
    requires z.global > 0
  {
    if rows % z.global != 0 && !z.hasHandler then 1 else rows / z.global
  }

  ghost predicate BatchFits(z: Sizes, rows: nat, taken: nat)
    requires z.micro > 0 && z.global > 0
  {
    var k := GlobalCount(z, rows);
    SplitsEvenly(rows, k) && GlobalsFitFrom(z, rows / k, taken, k)
  }

  /** The first total that is a multiple of the global size or no smaller, and the sizes behind it. */
  function Gathered(z: Sizes, total: nat, sizes: seq<nat>): (r: Option<(nat, seq<nat>)>)
    requires z.global > 0
    ensures r.Some? ==> |r.value.1| <= |sizes|
    decreases |sizes|
  {
    if total >= z.global || total % z.global == 0 then Some((total, sizes))
    else if sizes == [] then None
    else Gathered(z, total + sizes[0], sizes[1..])
  }

  function NextBatch(z: Sizes, sizes: seq<nat>): (r: Option<(nat, seq<nat>)>)
    requires z.global > 0 && sizes != []
    ensures r.Some? ==> |r.value.1| < |sizes|
  {
    if z.hasHandler then Gathered(z, sizes[0], sizes[1..]) else Some((sizes[0], sizes[1..]))
  }

  /** Batch by batch, the fetched sizes fit. */
  ghost predicate SizesRun(z: Sizes, sizes: seq<nat>, taken: nat)
    requires z.micro > 0 && z.global > 0
    decreases |sizes|
  {
    sizes == [] ||
    match NextBatch(z, sizes)
    case None => false
    case Some(next) => BatchFits(z, next.0, taken) && SizesRun(z, next.1, taken + next.0)
  }

  // ---------------------------------------------------------------- the condition on states

  ghost predicate MicrosRun<Row>(micros: seq<seq<Row>>, taken: nat, global: nat)
    requires global > 0
  {
    micros == [] || (taken % global + |micros[0]| <= global && MicrosRun(micros[1..], taken + |micros[0]|, global))
  }

  ghost predicate GlobalsRun<Row>(z: Sizes, globals: seq<seq<Row>>, taken: nat)
    requires z.micro > 0 && z.global > 0
    decreases |globals|
  {
    globals == [] || (GlobalFits(z, |globals[0]|, taken) && GlobalsRun(z, globals[1..], taken + |globals[0]|))
  }

  /** What is left in the iterator fits, when `taken` rows have been taken out. */
  ghost predicate Flows<Row>(z: Sizes, s: State<Row>, taken: nat)
    requires z.micro > 0 && z.global > 0
  {
    && MicrosRun(s.micros, taken, z.global)
    && GlobalsRun(z, s.globals, taken + |Flatten(s.micros)|)
    && SizesRun(z, Lengths(s.source), taken + |Flatten(s.micros)| + |Flatten(s.globals)|)
  }

  predicate Drained<Row>(s: State<Row>) {
    s.prefetched.None? && s.micros == [] && s.globals == [] && s.source == []
  }

  lemma {:induction false} PositionLater(taken: nat, size: nat, j: nat)
    ensures Position(taken + size, size, j) == Position(taken, size, j + 1)
    ensures Position(taken, size, 0) == taken
  {
    SuccTimes(j, size);
  }

  lemma {:induction false} InsideStep(taken: nat, size: nat, count: nat, global: nat)
    requires global > 0 && count > 0
    ensures Inside(taken, size, count, global)
      <==> taken % global + size <= global && Inside(taken + size, size, count - 1, global)
  {
    PositionLater(taken, size, 0);
    if Inside(taken, size, count, global) {
      assert Position(taken, size, 0) % global + size <= global;
      var later := taken + size;
      forall j: nat | j < count - 1 ensures Position(later, size, j) % global + size <= global {
        PositionLater(taken, size, j);
      }
    }
    if taken % global + size <= global && Inside(taken + size, size, count - 1, global) {
      forall j: nat | j < count ensures Position(taken, size, j) % global + size <= global {
        if j > 0 {
          PositionLater(taken, size, j - 1);
        }
      }
    }
  }

  lemma {:induction false} EqualMicros<Row>(micros: seq<seq<Row>>, size: nat, taken: nat, global: nat)
    requires global > 0 && AllSized(micros, size)
    ensures MicrosRun(micros, taken, global) <==> Inside(taken, size, |micros|, global)
  {
    if micros != [] {
      EqualMicros(micros[1..], size, taken + size, global);
      InsideStep(taken, size, |micros|, global);
    }
  }

  lemma {:induction false} FitStep(z: Sizes, rows: nat, taken: nat, count: nat)
    requires z.micro > 0 && z.global > 0 && count > 0
    ensures GlobalsFitFrom(z, rows, taken, count)
      <==> GlobalFits(z, rows, taken) && GlobalsFitFrom(z, rows, taken + rows, count - 1)
  {
    PositionLater(taken, rows, 0);
    if GlobalsFitFrom(z, rows, taken, count) {
      assert GlobalFits(z, rows, Position(taken, rows, 0));
      var later := taken + rows;
      forall i: nat | i < count - 1 ensures GlobalFits(z, rows, Position(later, rows, i)) {
        PositionLater(taken, rows, i);
      }
    }
    if GlobalFits(z, rows, taken) && GlobalsFitFrom(z, rows, taken + rows, count - 1) {
      forall i: nat | i < count ensures GlobalFits(z, rows, Position(taken, rows, i)) {
        if i > 0 {
          PositionLater(taken, rows, i - 1);
        }
      }
    }
  }

  lemma {:induction false} EqualGlobals<Row>(z: Sizes, globals: seq<seq<Row>>, rows: nat, taken: nat)
    requires z.micro > 0 && z.global > 0 && AllSized(globals, rows)
    ensures GlobalsRun(z, globals, taken) <==> GlobalsFitFrom(z, rows, taken, |globals|)
    decreases |globals|
  {
    if globals != [] {
      EqualGlobals(z, globals[1..], rows, taken + rows);
      FitStep(z, rows, taken, |globals|);
    }
  }

  // ---------------------------------------------------------------- one delivery

  lemma {:induction false} SplitSizes<Row>(batch: seq<Row>, k: nat)
    ensures KSplit(batch, k).Ok? <==> SplitsEvenly(|batch|, k)
    ensures KSplit(batch, k).Ok? ==> |KSplit(batch, k).value| == k && AllSized(KSplit(batch, k).value, |batch| / k)
    ensures KSplit(batch, k).Ok? ==> Flatten(KSplit(batch, k).value) == batch
  {
    if KSplit(batch, k).Ok? {
      KSplitKeeps(batch, k);
    }
  }

  lemma {:induction false} CutRuns<Row>(z: Sizes, batch: seq<Row>, taken: nat)
    requires z.micro > 0 && z.global > 0
    ensures var cut := KSplit(batch, |batch| / z.micro);
      GlobalFits(z, |batch|, taken) <==> cut.Ok? && MicrosRun(cut.value, taken, z.global)
  {
    var k := |batch| / z.micro;
    SplitSizes(batch, k);
    if KSplit(batch, k).Ok? {
      EqualMicros(KSplit(batch, k).value, |batch| / k, taken, z.global);
    }
  }

  lemma {:induction false} DealRuns<Row>(z: Sizes, full: seq<Row>, taken: nat)
    requires z.micro > 0 && z.global > 0 && (|full| % z.global == 0 || z.hasHandler)
    ensures var dealt := KSplit(full, |full| / z.global);
      BatchFits(z, |full|, taken) <==> dealt.Ok? && GlobalsRun(z, dealt.value, taken)
  {
    var k := |full| / z.global;
    SplitSizes(full, k);
    if KSplit(full, k).Ok? {
      EqualGlobals(z, KSplit(full, k).value, |full| / k, taken);
    }
  }

  /** Filling on sizes. */
  lemma {:induction false} FillGathers<Row>(z: Sizes, s: State<Row>, batch: seq<Row>)
    requires z.global > 0
    ensures var filled, gathered := Fill(z, s, batch), Gathered(z, |batch|, Lengths(s.source));
      && filled.state == s.(source := filled.state.source)
      && (filled.outcome.Ok? <==> gathered.Some?)
      && (filled.outcome.Ok? ==> gathered.value == (|filled.outcome.value|, Lengths(filled.state.source)))
    decreases |s.source|
  {
    if !(|batch| >= z.global || |batch| % z.global == 0) && s.source != [] {
      FillGathers(z, s.(source := s.source[1..]), batch + s.source[0]);
      assert Lengths(s.source[1..]) == Lengths(s.source)[1..];
    }
  }

  lemma {:induction false} DealFlows<Row>(z: Sizes, s: State<Row>, full: seq<Row>, taken: nat)
    requires z.micro > 0 && z.global > 0 && (|full| % z.global == 0 || z.hasHandler)
    requires s.micros == [] && s.globals == []
    ensures var d := Deal(z, Step(s, Ok(full)));
      BatchFits(z, |full|, taken) && SizesRun(z, Lengths(s.source), taken + |full|)
      <==> d.outcome.Ok? && Flows(z, d.state, taken)
  {
    DealRuns(z, full, taken);
    SplitSizes(full, |full| / z.global);
  }

  lemma {:induction false} WholeFlows<Row>(z: Sizes, s: State<Row>, batch: seq<Row>, taken: nat)
    requires z.micro > 0 && z.global > 0 && |batch| % z.global != 0 && !z.hasHandler
    requires s.micros == [] && s.globals == [batch]
    ensures BatchFits(z, |batch|, taken) && SizesRun(z, Lengths(s.source), taken + |batch|) <==> Flows(z, s, taken)
  {
    EqualGlobals(z, s.globals, |batch|, taken);
    assert Flatten(s.globals) == batch;
  }

  /** Fetching keeps what is said of the sizes, and fails only where it is false. */
  lemma {:induction false} FetchFlows<Row>(z: Sizes, s: State<Row>, taken: nat)
    requires z.micro > 0 && z.global > 0 && s.micros == [] && s.globals == [] && s.source != []
    ensures Flows(z, s, taken) <==> Fetch(z, s).outcome.Ok? && Flows(z, Fetch(z, s).state, taken)
  {
    var batch, s1 := s.source[0], s.(source := s.source[1..]);
    assert Lengths(s.source)[1..] == Lengths(s1.source) && Lengths(s.source)[0] == |batch|;
    if |batch| % z.global == 0 {
      DealFlows(z, s1, batch, taken);
    } else if !z.hasHandler {
      WholeFlows(z, s1.(globals := [batch]), batch, taken);
    } else {
      FillGathers(z, s1, batch);
      var filled := Fill(z, s1, batch);
      if filled.outcome.Ok? {
        assert filled == Step(filled.state, Ok(filled.outcome.value));
        DealFlows(z, filled.state, filled.outcome.value, taken);
      }
    }
  }

  lemma {:induction false} CutFlows<Row>(z: Sizes, s: State<Row>, taken: nat)
    requires z.micro > 0 && z.global > 0 && s.micros == [] && s.globals != []
    ensures Flows(z, s, taken) <==> Refill(z, s).outcome.Ok? && Flows(z, Refill(z, s).state, taken)
  {
    var batch := s.globals[0];
    CutRuns(z, batch, taken);
    SplitSizes(batch, |batch| / z.micro);
  }

  lemma {:induction false} RefillFlows<Row>(z: Sizes, s: State<Row>, taken: nat)
    requires z.micro > 0 && z.global > 0 && s.prefetched.None? && s.micros == [] && !Drained(s)
    ensures Flows(z, s, taken) <==> Refill(z, s).outcome.Ok? && Flows(z, Refill(z, s).state, taken)
  {
    if s.globals != [] {
      CutFlows(z, s, taken);
    } else {
      FetchFlows(z, s, taken);
      if Fetch(z, s).outcome.Ok? {
        FetchKeeps(z, s);
        CutFlows(z, Fetch(z, s).state, taken);
      }
    }
  }

  lemma {:induction false} PopFlows<Row>(z: Sizes, s: State<Row>, taken: nat)
    requires z.micro > 0 && z.global > 0 && s.prefetched.None? && s.micros != [] && s.consumed == taken % z.global
    ensures var p := Pop(z, s);
      && (Flows(z, s, taken) <==> p.outcome.Ok? && Flows(z, p.state, taken + |s.micros[0]|))
      && (p.outcome.Ok? ==> p.outcome.value == Some(s.micros[0]))
  {
  }

  /** A state fits exactly if the next delivery succeeds and leaves a state that fits. */
  lemma {:induction false} NextFlows<Row>(z: Sizes, s: State<Row>, taken: nat)
    requires z.micro > 0 && z.global > 0 && s.prefetched.None? && s.consumed == taken % z.global && !Drained(s)
    ensures Flows(z, s, taken)
      <==> Next(z, s).outcome.Ok? && Flows(z, Next(z, s).state, taken + |Next(z, s).outcome.value|)
  {
    if s.micros != [] {
      PopFlows(z, s, taken);
    } else {
      RefillFlows(z, s, taken);
      if Refill(z, s).outcome.Ok? {
        RefillKeeps(z, s);
        PopFlows(z, Refill(z, s).state, taken);
      }
    }
  }

  // ---------------------------------------------------------------- whole runs

  /** The run after n deliveries. */
  function After<Row>(z: Sizes, source: seq<seq<Row>>, n: nat): Result<Run<Row>> {
    RunCalls(z, source, Deliveries(n))
  }

  lemma {:induction false} AfterNext<Row>(z: Sizes, source: seq<seq<Row>>, n: nat)
    ensures After(z, source, n + 1) ==
      match After(z, source, n)
      case Err(e) => Err(e)
      case Ok(r) => RunCall(z, r, CallNext)
  {
    assert Deliveries(n + 1) == Deliveries(n) + [CallNext];
    RunPush(z, source, Deliveries(n), CallNext);
  }

  /** Some number of deliveries hands out everything. */
  ghost predicate RunsThrough<Row>(z: Sizes, source: seq<seq<Row>>) {
    exists n: nat :: After(z, source, n).Ok? && Drained(After(z, source, n).value.state)
  }

  ghost predicate FlowsAfter<Row>(z: Sizes, source: seq<seq<Row>>, n: nat)
    requires z.micro > 0 && z.global > 0
  {
    && After(z, source, n).Ok?
    && var r := After(z, source, n).value; Flows(z, r.state, |Flatten(r.delivered)|)
  }

  /** After deliveries alone nothing is held back, and the counter is the position in the global batch. */
  lemma {:induction false} AfterCounts<Row>(z: Sizes, source: seq<seq<Row>>, n: nat)
    requires z.global > 0 && After(z, source, n).Ok?
    ensures var r := After(z, source, n).value;
      r.state.prefetched.None? && r.state.consumed == |Flatten(r.delivered)| % z.global
  {
    DoneExactly(z, source, Deliveries(n));
    if n > 0 {
      AfterNext(z, source, n - 1);
      NextKeeps(z, After(z, source, n - 1).value.state);
    }
  }

  /** Going on keeps the fit in both directions, as long as something is left. */
  lemma {:induction false} FlowsOn<Row>(z: Sizes, source: seq<seq<Row>>, n: nat)
    requires z.micro > 0 && z.global > 0 && After(z, source, n).Ok? && !Drained(After(z, source, n).value.state)
    ensures FlowsAfter(z, source, n) <==> FlowsAfter(z, source, n + 1)
  {
    var r := After(z, source, n).value;
    AfterCounts(z, source, n);
    AfterNext(z, source, n);
    NextFlows(z, r.state, |Flatten(r.delivered)|);
    if Next(z, r.state).outcome.Ok? {
      FlattenPush(r.delivered, Next(z, r.state).outcome.value);
    }
  }

  lemma {:induction false} NextHasRows<Row>(z: Sizes, s: State<Row>, taken: nat)
    requires z.global > 0 && Counts(z, s, taken) && s.prefetched.None? && Next(z, s).outcome.Ok?
    ensures |Next(z, s).outcome.value| > 0
  {
    if s.micros == [] {
      RefillCounts(z, s, taken);
      RefillKeeps(z, s);
    }
  }

  lemma {:induction false} Progress<Row>(z: Sizes, source: seq<seq<Row>>, n: nat)
    requires z.global > 0 && After(z, source, n + 1).Ok?
    ensures After(z, source, n).Ok?
    ensures |Flatten(After(z, source, n + 1).value.delivered)| > |Flatten(After(z, source, n).value.delivered)|
  {
    AfterNext(z, source, n);
    var r := After(z, source, n).value;
    AfterCounts(z, source, n);
    DoneExactly(z, source, Deliveries(n));
    NextHasRows(z, r.state, Taken(r));
    FlattenPush(r.delivered, Next(z, r.state).outcome.value);
  }

  /** n deliveries hand out at least n of the fetched rows. */
  lemma {:induction false} RowsBound<Row>(z: Sizes, source: seq<seq<Row>>, n: nat)
    requires z.global > 0 && After(z, source, n).Ok?
    ensures n <= |Flatten(After(z, source, n).value.delivered)| <= |Flatten(source)|
  {
    RowsConserved(z, source, Deliveries(n));
    if n > 0 {
      Progress(z, source, n - 1);
      RowsBound(z, source, n - 1);
    }
  }

  lemma {:induction false} ZeroSizeFails<Row>(z: Sizes, source: seq<seq<Row>>)
    requires source != [] && (z.global == 0 || z.micro == 0)
    ensures After(z, source, 0).Ok? && After(z, source, 1).Err?
  {
    AfterNext(z, source, 0);
    assert Next(z, Start(source)).outcome.Err?;
  }

  lemma {:induction false} OkBefore<Row>(z: Sizes, source: seq<seq<Row>>, m: nat, n: nat)
    requires m <= n && After(z, source, n).Ok?
    ensures After(z, source, m).Ok?
  {
    if m < n {
      AfterNext(z, source, n - 1);
      OkBefore(z, source, m, n - 1);
    }
  }

  /** Deliveries go on until one fails or everything is handed out. */
  lemma {:induction false} GoOn<Row>(z: Sizes, source: seq<seq<Row>>, n: nat) returns (m: nat)
    requires z.global > 0 && After(z, source, n).Ok?
    ensures n <= m && After(z, source, m).Ok?
    ensures Drained(After(z, source, m).value.state) || After(z, source, m + 1).Err?
    decreases |Flatten(source)| - n
  {
    RowsBound(z, source, n);
    if Drained(After(z, source, n).value.state) || After(z, source, n + 1).Err? {
      m := n;
    } else {
      RowsBound(z, source, n + 1);
      m := GoOn(z, source, n + 1);
    }
  }

  lemma {:induction false} NothingRuns<Row>(z: Sizes, source: seq<seq<Row>>)
    ensures After(z, source, 0) == Ok(Run(Start(source), []))
    ensures source == [] ==> RunsThrough(z, source)
  {
    var first := After(z, source, 0);
    assert source == [] ==> first.Ok? && Drained(first.value.state);
  }

  /** An iterator that does not run through fails with something left. */
  lemma {:induction false} FailsOtherwise<Row>(z: Sizes, source: seq<seq<Row>>) returns (n: nat)
    requires !RunsThrough(z, source)
    ensures After(z, source, n).Ok? && !Drained(After(z, source, n).value.state) && After(z, source, n + 1).Err?
  {
    NothingRuns(z, source);
    if z.global == 0 {
      ZeroSizeFails(z, source);
      n := 0;
    } else {
      n := GoOn(z, source, 0);
    }
  }

  lemma {:induction false} FlowsUntil<Row>(z: Sizes, source: seq<seq<Row>>, n: nat)
    requires z.micro > 0 && z.global > 0 && After(z, source, n).Ok?
    ensures FlowsAfter(z, source, 0) <==> FlowsAfter(z, source, n)
  {
    if n > 0 {
      AfterNext(z, source, n - 1);
      FlowsUntil(z, source, n - 1);
      assert !Drained(After(z, source, n - 1).value.state);
      FlowsOn(z, source, n - 1);
    }
  }

  lemma {:induction false} FlowsAtStart<Row>(z: Sizes, source: seq<seq<Row>>)
    requires z.micro > 0 && z.global > 0
    ensures FlowsAfter(z, source, 0) <==> SizesRun(z, Lengths(source), 0)
  {
    assert After(z, source, 0) == Ok(Run(Start(source), []));
  }

  /** Everything is delivered exactly if the sizes of the fetched batches fit. */
  lemma {:induction false} RunsThroughExactly<Row>(z: Sizes, source: seq<seq<Row>>)
    ensures RunsThrough(z, source)
      <==> source == [] || (z.micro > 0 && z.global > 0 && SizesRun(z, Lengths(source), 0))
  {
    if source == [] {
      NothingRuns(z, source);
    } else if z.micro == 0 || z.global == 0 {
      ZeroSizeFails(z, source);
      ZeroNeverRuns(z, source);
    } else {
      FlowsAtStart(z, source);
      if RunsThrough(z, source) {
        var n: nat :| After(z, source, n).Ok? && Drained(After(z, source, n).value.state);
        FlowsUntil(z, source, n);
      } else {
        var n := FailsOtherwise(z, source);
        FlowsUntil(z, source, n);
        FlowsOn(z, source, n);
      }
    }
  }

  lemma {:induction false} ZeroNeverRuns<Row>(z: Sizes, source: seq<seq<Row>>)
    requires source != [] && After(z, source, 1).Err?
    ensures !RunsThrough(z, source)
  {
    forall n: nat | After(z, source, n).Ok? ensures !Drained(After(z, source, n).value.state) {
      if n > 0 {
        OkBefore(z, source, 1, n);
      }
    }
  }

  /** Sizes that line up with the global batches run through. */
  lemma {:induction false} LinedUpRuns<Row>(z: Sizes, source: seq<seq<Row>>)
    requires SizesFit(z) && SourceFits(z, source)
    ensures RunsThrough(z, source)
  {
    if !RunsThrough(z, source) {
      var n := FailsOtherwise(z, source);
      AfterNext(z, source, n);
      DeliversExactly(z, source, n);
      NextSucceeds(z, After(z, source, n).value.state);
    }
  }

  /** They need not: two rows and four, filled up to six, run through global batches of four. */
  lemma {:induction false} UnevenRuns()
    ensures var z, source := Sizes(2, 4, true), [[0, 1], [2, 3, 4, 5]];
      !SourceFits(z, source) && RunsThrough(z, source)
  {
    var z, source := Sizes(2, 4, true), [[0, 1], [2, 3, 4, 5]];
    var sizes: seq<nat> := [2, 4];
    assert Lengths(source) == sizes && sizes[1..] == [4];
    assert Gathered(z, 2, [4]) == Gathered(z, 6, []) == Some((6, []));
    RunsThroughExactly(z, source);
  }
}
