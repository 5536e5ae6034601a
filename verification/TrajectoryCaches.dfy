/**
 The slot cache of flattened trajectories: a ring of slots inside one flat buffer per tensor key.
 Slots grow when a longer trajectory arrives, which relocates everything cached so far.

 `Fifo` is the map the cache stands for. The class is proved to behave like it, and `Fifo` itself
 is proved to hold the last value put for each of the most recent insertions.
*/
module TrajectoryCaches {
  import opened Sequences
  import opened Outcomes

  /** The name of a tensor; names inside nested dictionaries are spelled as paths. */
  type Key(==)

  /** A flattened trajectory: the rows of every tensor. */
  type Flat<Row> = map<Key, seq<Row>>

  // ---------------------------------------------------------------- rows and slots

  /** The first `len` rows of a slot, in a buffer of `slots` slots of `size` rows. */
  function SlotRows<Row>(rows: seq<Row>, slots: nat, size: nat, slot: nat, len: nat): (r: seq<Row>)
    requires |rows| == slots * size && slot < slots && len <= size
    ensures |r| == len
  {
    SlotBounds(slots, size, slot);
    rows[slot * size..slot * size + len]
  }

  lemma {:induction false} SlotBounds(slots: nat, size: nat, slot: nat)
    requires slot < slots
    ensures 0 <= slot * size && slot * size + size <= slots * size
  {
    SuccTimes(slot, size);
    MulMono(slot + 1, slots, size);
  }

  /** Distinct slots do not overlap. */
  lemma {:induction false} SlotsApart(size: nat, a: nat, b: nat)
    requires a != b
    ensures a * size + size <= b * size || b * size + size <= a * size
  {
    SuccTimes(a, size);
    SuccTimes(b, size);
    if a < b {
      MulMono(a + 1, b, size);
    } else {
      MulMono(b + 1, a, size);
    }
  }

  /** The assignment `rows[start:start + len(value)] = value`. */
  function Overwrite<Row>(rows: seq<Row>, start: nat, value: seq<Row>): (r: seq<Row>)
    requires start + |value| <= |rows|
    ensures |r| == |rows|
  {
    rows[..start] + value + rows[start + |value|..]
  }

  lemma {:induction false} OverwriteSlot<Row>(rows: seq<Row>, slots: nat, size: nat, slot: nat, value: seq<Row>)
    requires |rows| == slots * size && slot < slots && |value| <= size
    ensures slot * size + |value| <= |rows|
    ensures SlotRows(Overwrite(rows, slot * size, value), slots, size, slot, |value|) == value
  {
    SlotBounds(slots, size, slot);
  }

  lemma {:induction false} OverwriteOther<Row>(rows: seq<Row>, slots: nat, size: nat, slot: nat, value: seq<Row>,
        other: nat, len: nat)
    requires |rows| == slots * size && slot < slots && |value| <= size
    requires other < slots && other != slot && len <= size
    ensures slot * size + |value| <= |rows|
    ensures SlotRows(Overwrite(rows, slot * size, value), slots, size, other, len)
      == SlotRows(rows, slots, size, other, len)
  {
    SlotBounds(slots, size, slot);
    SlotBounds(slots, size, other);
    SlotsApart(size, slot, other);
  }

  // ---------------------------------------------------------------- the flat buffer

  function KeyLengths<Row>(value: Flat<Row>): (r: map<Key, nat>)
    ensures r.Keys == value.Keys
    ensures forall k :: k in value ==> r[k] == |value[k]|
  {
    map k | k in value :: |value[k]|
  }

  ghost predicate BufferOk<Row>(buffer: Flat<Row>, slots: nat, size: nat) {
    forall k :: k in buffer ==> |buffer[k]| == slots * size
  }

  ghost predicate LengthsOk<Row>(buffer: Flat<Row>, size: nat, lengths: map<Key, nat>) {
    lengths.Keys == buffer.Keys && forall k :: k in buffer ==> lengths[k] <= size
  }

  /** The trajectory a slot holds, given its tensor lengths. */
  ghost function RowsOf<Row>(buffer: Flat<Row>, slots: nat, size: nat, slot: nat, lengths: map<Key, nat>): Flat<Row>
    requires BufferOk(buffer, slots, size) && LengthsOk(buffer, size, lengths) && slot < slots
  {
    map k | k in buffer :: SlotRows(buffer[k], slots, size, slot, lengths[k])
  }

  /** `_insert_into_buffer`: every tensor of the value overwrites the start of the slot. */
  function WriteSlot<Row>(buffer: Flat<Row>, slots: nat, size: nat, slot: nat, value: Flat<Row>): (r: Flat<Row>)
    requires slot < slots && buffer.Keys == value.Keys
    requires forall k :: k in buffer ==> |buffer[k]| == slots * size && |value[k]| <= size
    ensures r.Keys == buffer.Keys && BufferOk(r, slots, size)
  {
    SlotBounds(slots, size, slot);
    map k | k in buffer :: Overwrite(buffer[k], slot * size, value[k])
  }

  lemma {:induction false} WriteSlotHolds<Row>(buffer: Flat<Row>, slots: nat, size: nat, slot: nat, value: Flat<Row>)
    requires slot < slots && buffer.Keys == value.Keys
    requires forall k :: k in buffer ==> |buffer[k]| == slots * size && |value[k]| <= size
    ensures LengthsOk(WriteSlot(buffer, slots, size, slot, value), size, KeyLengths(value))
    ensures RowsOf(WriteSlot(buffer, slots, size, slot, value), slots, size, slot, KeyLengths(value)) == value
  {
    forall k | k in buffer
      ensures SlotRows(WriteSlot(buffer, slots, size, slot, value)[k], slots, size, slot, |value[k]|) == value[k]
    {
      OverwriteSlot(buffer[k], slots, size, slot, value[k]);
    }
  }

  lemma {:induction false} WriteSlotKeeps<Row>(buffer: Flat<Row>, slots: nat, size: nat, slot: nat, value: Flat<Row>,
        other: nat, lengths: map<Key, nat>)
    requires slot < slots && other < slots && other != slot && buffer.Keys == value.Keys
    requires forall k :: k in buffer ==> |buffer[k]| == slots * size && |value[k]| <= size
    requires LengthsOk(buffer, size, lengths)
    ensures LengthsOk(WriteSlot(buffer, slots, size, slot, value), size, lengths)
    ensures RowsOf(WriteSlot(buffer, slots, size, slot, value), slots, size, other, lengths)
      == RowsOf(buffer, slots, size, other, lengths)
  {
    forall k | k in buffer
      ensures SlotRows(WriteSlot(buffer, slots, size, slot, value)[k], slots, size, other, lengths[k])
        == SlotRows(buffer[k], slots, size, other, lengths[k])
    {
      OverwriteOther(buffer[k], slots, size, slot, value[k], other, lengths[k]);
    }
  }

  /** Both buffers hold the same first `len` rows of the slot, whatever their slot sizes. */
  ghost predicate SameSlot<Row>(a: Flat<Row>, sizeA: nat, b: Flat<Row>, sizeB: nat, slots: nat, slot: nat, len: nat)
    requires BufferOk(a, slots, sizeA) && BufferOk(b, slots, sizeB) && a.Keys == b.Keys
    requires slot < slots && len <= sizeA && len <= sizeB
  {
    forall k :: k in a ==> SlotRows(a[k], slots, sizeA, slot, len) == SlotRows(b[k], slots, sizeB, slot, len)
  }

  lemma {:induction false} SlotPrefix<Row>(rows: seq<Row>, slots: nat, size: nat, slot: nat, len: nat, short: nat)
    requires |rows| == slots * size && slot < slots && short <= len <= size
    ensures SlotRows(rows, slots, size, slot, short) == SlotRows(rows, slots, size, slot, len)[..short]
  {
    SlotBounds(slots, size, slot);
  }

  lemma {:induction false} SameSlotSameRows<Row>(a: Flat<Row>, sizeA: nat, b: Flat<Row>, sizeB: nat, slots: nat,
        slot: nat, lengths: map<Key, nat>)
    requires BufferOk(a, slots, sizeA) && BufferOk(b, slots, sizeB) && a.Keys == b.Keys
    requires slot < slots && sizeA <= sizeB && LengthsOk(a, sizeA, lengths)
    requires SameSlot(a, sizeA, b, sizeB, slots, slot, sizeA)
    ensures LengthsOk(b, sizeB, lengths)
    ensures RowsOf(b, slots, sizeB, slot, lengths) == RowsOf(a, slots, sizeA, slot, lengths)
  {
    forall k | k in a
      ensures SlotRows(b[k], slots, sizeB, slot, lengths[k]) == SlotRows(a[k], slots, sizeA, slot, lengths[k])
    {
      SlotPrefix(a[k], slots, sizeA, slot, sizeA, lengths[k]);
      SlotPrefix(b[k], slots, sizeB, slot, sizeA, lengths[k]);
    }
  }

  /** `_alloc_buffer_like`: rows of unknown content. */
  method Allocate<Row(0)>(keys: set<Key>, rows: nat) returns (r: Flat<Row>)
    ensures r.Keys == keys && forall k :: k in keys ==> |r[k]| == rows
  {
    var unknown: Row := *;
    r := map k | k in keys :: seq(rows, _ => unknown);
  }

  function SlotOf<Row>(buffer: Flat<Row>, slots: nat, size: nat, slot: nat): (r: Flat<Row>)
    requires slot < slots && forall k :: k in buffer ==> |buffer[k]| == slots * size
    ensures r.Keys == buffer.Keys && forall k :: k in r ==> |r[k]| == size
  {
    map k | k in buffer :: SlotRows(buffer[k], slots, size, slot, size)
  }

  lemma {:induction false} CopySlot<Row>(a: Flat<Row>, sizeA: nat, b: Flat<Row>, sizeB: nat, slots: nat, slot: nat)
    requires BufferOk(a, slots, sizeA) && BufferOk(b, slots, sizeB) && a.Keys == b.Keys
    requires slot < slots && sizeA <= sizeB
    ensures var copied := WriteSlot(b, slots, sizeB, slot, SlotOf(a, slots, sizeA, slot));
      SameSlot(a, sizeA, copied, sizeB, slots, slot, sizeA)
  {
    forall k | k in a {
      OverwriteSlot(b[k], slots, sizeB, slot, SlotRows(a[k], slots, sizeA, slot, sizeA));
    }
  }

  lemma {:induction false} CopySlotKeeps<Row>(a: Flat<Row>, sizeA: nat, b: Flat<Row>, sizeB: nat, slots: nat,
        slot: nat, other: nat)
    requires BufferOk(a, slots, sizeA) && BufferOk(b, slots, sizeB) && a.Keys == b.Keys
    requires slot < slots && other < slots && other != slot && sizeA <= sizeB
    requires SameSlot(a, sizeA, b, sizeB, slots, other, sizeA)
    ensures var copied := WriteSlot(b, slots, sizeB, slot, SlotOf(a, slots, sizeA, slot));
      SameSlot(a, sizeA, copied, sizeB, slots, other, sizeA)
  {
    forall k | k in a {
      OverwriteOther(b[k], slots, sizeB, slot, SlotRows(a[k], slots, sizeA, slot, sizeA), other, sizeA);
    }
  }

  lemma {:induction false} CopyOneMore<Row>(a: Flat<Row>, sizeA: nat, b: Flat<Row>, sizeB: nat, slots: nat, slot: nat,
        copied: set<nat>)
    requires BufferOk(a, slots, sizeA) && BufferOk(b, slots, sizeB) && a.Keys == b.Keys
    requires slot < slots && sizeA <= sizeB && forall other :: other in copied ==> other < slots
    requires forall other :: other in copied ==> SameSlot(a, sizeA, b, sizeB, slots, other, sizeA)
    ensures forall other :: other in copied + {slot} ==>
      SameSlot(a, sizeA, WriteSlot(b, slots, sizeB, slot, SlotOf(a, slots, sizeA, slot)), sizeB, slots, other, sizeA)
  {
    CopySlot(a, sizeA, b, sizeB, slots, slot);
    var next := WriteSlot(b, slots, sizeB, slot, SlotOf(a, slots, sizeA, slot));
    forall other | other in copied && other != slot ensures SameSlot(a, sizeA, next, sizeB, slots, other, sizeA)
    {
      CopySlotKeeps(a, sizeA, b, sizeB, slots, slot, other);
    }
  }

  /** Growing the slots: every slot in use is copied to where it starts under the new size. */
  method Relocate<Row(0)>(buffer: Flat<Row>, slots: nat, oldSize: nat, newSize: nat, inUse: set<nat>)
    returns (grown: Flat<Row>)
    requires BufferOk(buffer, slots, oldSize) && oldSize <= newSize
    requires forall slot :: slot in inUse ==> slot < slots
    ensures grown.Keys == buffer.Keys && BufferOk(grown, slots, newSize)
    ensures forall slot :: slot in inUse ==> SameSlot(buffer, oldSize, grown, newSize, slots, slot, oldSize)
  {
    grown := Allocate<Row>(buffer.Keys, slots * newSize);
    var todo := inUse;
    while todo != {}
      invariant todo <= inUse && grown.Keys == buffer.Keys && BufferOk(grown, slots, newSize)
      invariant forall slot :: slot in inUse - todo ==> SameSlot(buffer, oldSize, grown, newSize, slots, slot, oldSize)
      decreases todo
    {
      var slot :| slot in todo;
      CopyOneMore(buffer, oldSize, grown, newSize, slots, slot, inUse - todo);
      grown := WriteSlot(grown, slots, newSize, slot, SlotOf(buffer, slots, oldSize, slot));
      todo := todo - {slot};
    }
  }

  // ---------------------------------------------------------------- the FIFO map

  datatype Fifo<Row> = Fifo(order: seq<int>, vals: map<int, Flat<Row>>)

  function EmptyFifo<Row>(): Fifo<Row> {
    Fifo([], map[])
  }

  /** A cached id gets a new value in place; a new id displaces the oldest one of a full cache. */
  function FifoPut<Row>(f: Fifo<Row>, maxSize: nat, id: int, value: Flat<Row>): Fifo<Row> {
    if id in f.vals then f.(vals := f.vals[id := value])
    else if |f.order| == maxSize && f.order != [] then
      Fifo(f.order[1..] + [id], (f.vals - {f.order[0]})[id := value])
    else Fifo(f.order + [id], f.vals[id := value])
  }

  function FifoGet<Row>(f: Fifo<Row>, id: int): Option<Flat<Row>> {
    if id in f.vals then Some(f.vals[id]) else None
  }

  datatype CacheOp<Row> = Put(id: int, value: Flat<Row>) | Clear

  function FifoRun<Row>(ops: seq<CacheOp<Row>>, maxSize: nat): Fifo<Row> {
    if ops == [] then EmptyFifo()
    else
      match ops[|ops| - 1]
      case Clear => EmptyFifo()
      case Put(id, value) => FifoPut(FifoRun(ops[..|ops| - 1], maxSize), maxSize, id, value)
  }

  /** The ids inserted since the last clear: a put of an id among the last maxSize insertions is none. */
  function Insertions<Row>(ops: seq<CacheOp<Row>>, maxSize: nat): seq<int> {
    if ops == [] then []
    else
      var earlier := Insertions(ops[..|ops| - 1], maxSize);
      match ops[|ops| - 1]
      case Clear => []
      case Put(id, _) => if id in LastOf(earlier, maxSize) then earlier else earlier + [id]
  }

  /** The value of the last put of an id. */
  function LastPut<Row>(ops: seq<CacheOp<Row>>, id: int): Option<Flat<Row>> {
    if ops == [] then None
    else if ops[|ops| - 1].Put? && ops[|ops| - 1].id == id then Some(ops[|ops| - 1].value)
    else LastPut(ops[..|ops| - 1], id)
  }

  /** The cached ids are the last maxSize insertions, oldest first. */
  lemma {:induction false} OrderIsRecent<Row>(ops: seq<CacheOp<Row>>, maxSize: nat)
    requires maxSize > 0
    ensures var f := FifoRun(ops, maxSize);
      && f.order == LastOf(Insertions(ops, maxSize), maxSize)
      && Distinct(f.order)
      && forall id :: id in f.vals <==> id in f.order
  {
    if ops != [] && ops[|ops| - 1].Put? {
      var id := ops[|ops| - 1].id;
      OrderIsRecent(ops[..|ops| - 1], maxSize);
      RecentAfterPut(FifoRun(ops[..|ops| - 1], maxSize), Insertions(ops[..|ops| - 1], maxSize), maxSize, id,
        ops[|ops| - 1].value);
    }
  }

  lemma {:induction false} RecentAfterPut<Row>(f: Fifo<Row>, earlier: seq<int>, maxSize: nat, id: int, value: Flat<Row>)
    requires maxSize > 0 && f.order == LastOf(earlier, maxSize) && Distinct(f.order)
    requires forall i :: i in f.vals <==> i in f.order
    ensures var f' := FifoPut(f, maxSize, id, value);
      && f'.order == LastOf(if id in f.order then earlier else earlier + [id], maxSize)
      && Distinct(f'.order)
      && forall i :: i in f'.vals <==> i in f'.order
  {
    var f' := FifoPut(f, maxSize, id, value);
    if id !in f.vals && |f.order| == maxSize {
      assert f.order == [f.order[0]] + f.order[1..];
      DistinctTail(f.order);
      DistinctPush(f.order[1..], id);
    } else if id !in f.vals {
      DistinctPush(f.order, id);
    }
  }

  lemma {:induction false} PutThenGet<Row>(f: Fifo<Row>, maxSize: nat, id: int, value: Flat<Row>, other: int)
    ensures var f' := FifoPut(f, maxSize, id, value);
      && FifoGet(f', id) == Some(value)
      && (other != id && other in f'.vals ==> FifoGet(f', other) == FifoGet(f, other))
  {
  }

  /** `get` returns the last value put for each of the most recent maxSize insertions, and nothing else. */
  lemma {:induction false} GetIsLastPut<Row>(ops: seq<CacheOp<Row>>, maxSize: nat, id: int)
    requires maxSize > 0
    ensures FifoGet(FifoRun(ops, maxSize), id) ==
      if id in LastOf(Insertions(ops, maxSize), maxSize) then LastPut(ops, id) else None
  {
    OrderIsRecent(ops, maxSize);
    if id in FifoRun(ops, maxSize).vals {
      GetCached(ops, maxSize, id);
    }
  }

  lemma {:induction false} GetCached<Row>(ops: seq<CacheOp<Row>>, maxSize: nat, id: int)
    requires id in FifoRun(ops, maxSize).vals
    ensures FifoGet(FifoRun(ops, maxSize), id) == LastPut(ops, id)
  {
    var front, last := ops[..|ops| - 1], ops[|ops| - 1];
    PutThenGet(FifoRun(front, maxSize), maxSize, last.id, last.value, id);
    if last.id != id {
      GetCached(front, maxSize, id);
    }
  }

  // ---------------------------------------------------------------- tensor lengths

  /** The longest tensor of a trajectory. */
  ghost predicate IsMaxLength(lengths: map<Key, nat>, most: nat) {
    (forall k :: k in lengths ==> lengths[k] <= most) && (most == 0 || exists k :: k in lengths && lengths[k] == most)
  }

  method MaxNumSamples(lengths: map<Key, nat>) returns (most: nat)
    ensures IsMaxLength(lengths, most)
  {
    most := 0;
    var todo := lengths.Keys;
    while todo != {}
      invariant todo <= lengths.Keys
      invariant forall k :: k in lengths && k !in todo ==> lengths[k] <= most
      invariant most == 0 || exists k :: k in lengths && lengths[k] == most
      decreases todo
    {
      var k :| k in todo;
      todo := todo - {k};
      if lengths[k] > most {
        most := lengths[k];
      }
    }
  }

  // ---------------------------------------------------------------- the ring of slots

  /** Which slot holds which id, and the slot the next new id takes. */
  datatype Ring = Ring(size: nat, cache: map<int, nat>, slotToId: map<nat, int>, last: nat)

  /** The slots in use are 0..|cache|, both maps agree, and the ring wraps only when all slots are in use. */
  ghost predicate RingOk(r: Ring) {
    && r.size > 0 && r.last < r.size && |r.cache| <= r.size
    && (|r.cache| < r.size ==> r.last == |r.cache|)
    && (forall s: nat :: s in r.slotToId <==> s < |r.cache|)
    && (forall s :: s in r.slotToId ==> r.slotToId[s] in r.cache && r.cache[r.slotToId[s]] == s)
    && (forall id :: id in r.cache ==> r.cache[id] in r.slotToId && r.slotToId[r.cache[id]] == id)
  }

  /** The slot of the i-th oldest cached id. */
  ghost function SlotAt(r: Ring, i: nat): nat
    requires RingOk(r) && i < |r.cache|
    ensures SlotAt(r, i) < |r.cache|
  {
    if |r.cache| < r.size then i
    else if r.last + i < r.size then r.last + i
    else r.last + i - r.size
  }

  ghost function RingOrder(r: Ring): (order: seq<int>)
    requires RingOk(r)
    ensures |order| == |r.cache|
    ensures forall i :: 0 <= i < |order| ==> order[i] == r.slotToId[SlotAt(r, i)]
  {
    seq(|r.cache|, i requires 0 <= i < |r.cache| => r.slotToId[SlotAt(r, i)])
  }

  /** `(slot + 1) % slots`. */
  function Successor(slot: nat, slots: nat): (r: nat)
    requires slot < slots
    ensures r == if slot + 1 == slots then 0 else slot + 1
  {
    DivModUnique(slot + 1, if slot + 1 == slots then 1 else 0, if slot + 1 == slots then 0 else slot + 1, slots);
    (slot + 1) % slots
  }

  /** A new id takes the next slot; the id that held it is dropped. */
  function Claim(r: Ring, id: int): Ring
    requires r.last < r.size
  {
    var kept := if r.last in r.slotToId then r.cache - {r.slotToId[r.last]} else r.cache;
    Ring(r.size, kept[id := r.last], r.slotToId[r.last := id], Successor(r.last, r.size))
  }

  lemma {:induction false} CardinalityAfterRemoval(m: map<int, nat>, k: int)
    requires k in m
    ensures |m - {k}| == |m| - 1
  {
    assert (m - {k}).Keys == m.Keys - {k};
    assert |m - {k}| == |(m - {k}).Keys| && |m| == |m.Keys|;
  }

  lemma {:induction false} ClaimSize(r: Ring, id: int)
    requires RingOk(r) && id !in r.cache
    ensures |Claim(r, id).cache| == Min(|r.cache| + 1, r.size)
  {
    if r.last in r.slotToId {
      CardinalityAfterRemoval(r.cache, r.slotToId[r.last]);
    }
  }

  lemma {:induction false} ClaimOk(r: Ring, id: int)
    requires RingOk(r) && id !in r.cache
    ensures RingOk(Claim(r, id))
  {
    var r' := Claim(r, id);
    ClaimSize(r, id);
    forall s | s in r'.slotToId ensures r'.slotToId[s] in r'.cache && r'.cache[r'.slotToId[s]] == s {
      if s != r.last {
        assert r.slotToId[s] in r.cache;
      }
    }
    forall k | k in r'.cache ensures r'.cache[k] in r'.slotToId && r'.slotToId[r'.cache[k]] == k {
      if k != id {
        assert k in r.cache;
      }
    }
  }

  /** The order loses its oldest id when the ring is full, and gains the new one at the end. */
  lemma {:induction false} ClaimOrder(r: Ring, id: int)
    requires RingOk(r) && id !in r.cache
    ensures RingOk(Claim(r, id))
    ensures RingOrder(Claim(r, id)) == (if |r.cache| == r.size then RingOrder(r)[1..] else RingOrder(r)) + [id]
    ensures |r.cache| == r.size ==> r.last in r.slotToId && r.slotToId[r.last] == RingOrder(r)[0]
  {
    ClaimOk(r, id);
    ClaimSize(r, id);
    var r' := Claim(r, id);
    var order, order' := RingOrder(r), RingOrder(r');
    var kept := if |r.cache| == r.size then order[1..] else order;
    forall i | 0 <= i < |kept| ensures order'[i] == kept[i] {
      if |r.cache| == r.size {
        assert SlotAt(r', i) == SlotAt(r, i + 1) != r.last;
      } else {
        assert SlotAt(r', i) == SlotAt(r, i);
      }
    }
    assert SlotAt(r', |kept|) == r.last;
  }

  // ---------------------------------------------------------------- what the slots hold

  /** Every cached id has a slot of its own and tensor lengths that fit it. */
  ghost predicate Holds<Row>(buffer: Flat<Row>, slots: nat, size: nat, cache: map<int, nat>,
        lengths: map<int, map<Key, nat>>)
  {
    && BufferOk(buffer, slots, size)
    && forall id :: id in cache ==> cache[id] < slots && id in lengths && LengthsOk(buffer, size, lengths[id])
  }

  ghost predicate OwnSlots(cache: map<int, nat>) {
    forall a, b :: a in cache && b in cache && a != b ==> cache[a] != cache[b]
  }

  ghost function Contents<Row>(buffer: Flat<Row>, slots: nat, size: nat, cache: map<int, nat>,
        lengths: map<int, map<Key, nat>>): map<int, Flat<Row>>
    requires Holds(buffer, slots, size, cache, lengths)
  {
    map id | id in cache :: RowsOf(buffer, slots, size, cache[id], lengths[id])
  }

  /** A cached id other than the one being written. */
  lemma {:induction false} WriteOther<Row>(buffer: Flat<Row>, slots: nat, size: nat, cache: map<int, nat>,
        lengths: map<int, map<Key, nat>>, id: int, value: Flat<Row>, other: int)
    requires id in cache && cache[id] < slots && OwnSlots(cache) && buffer.Keys == value.Keys
    requires Holds(buffer, slots, size, cache - {id}, lengths)
    requires forall k :: k in value ==> |value[k]| <= size
    requires other in cache && other != id
    ensures cache[other] < slots && other in lengths && LengthsOk(buffer, size, lengths[other])
    ensures LengthsOk(WriteSlot(buffer, slots, size, cache[id], value), size, lengths[other])
    ensures RowsOf(WriteSlot(buffer, slots, size, cache[id], value), slots, size, cache[other], lengths[other])
      == RowsOf(buffer, slots, size, cache[other], lengths[other])
  {
    assert other in cache - {id};
    WriteSlotKeeps(buffer, slots, size, cache[id], value, cache[other], lengths[other]);
  }

  lemma {:induction false} WriteHolds<Row>(buffer: Flat<Row>, slots: nat, size: nat, cache: map<int, nat>,
        lengths: map<int, map<Key, nat>>, id: int, value: Flat<Row>)
    requires id in cache && cache[id] < slots && OwnSlots(cache) && buffer.Keys == value.Keys
    requires Holds(buffer, slots, size, cache - {id}, lengths)
    requires forall k :: k in value ==> |value[k]| <= size
    ensures var next := WriteSlot(buffer, slots, size, cache[id], value);
      Holds(next, slots, size, cache, lengths[id := KeyLengths(value)])
  {
    WriteSlotHolds(buffer, slots, size, cache[id], value);
    forall other | other in cache && other != id
      ensures cache[other] < slots && other in lengths
      ensures LengthsOk(WriteSlot(buffer, slots, size, cache[id], value), size, lengths[other])
    {
      WriteOther(buffer, slots, size, cache, lengths, id, value, other);
    }
  }

  /** Writing one cached id's slot changes what that id holds and nothing else. */
  lemma {:induction false} WriteContents<Row>(buffer: Flat<Row>, slots: nat, size: nat, cache: map<int, nat>,
        lengths: map<int, map<Key, nat>>, id: int, value: Flat<Row>)
    requires id in cache && cache[id] < slots && OwnSlots(cache) && buffer.Keys == value.Keys
    requires Holds(buffer, slots, size, cache - {id}, lengths)
    requires forall k :: k in value ==> |value[k]| <= size
    ensures var next := WriteSlot(buffer, slots, size, cache[id], value);
      var lengths' := lengths[id := KeyLengths(value)];
      && Holds(next, slots, size, cache, lengths')
      && Contents(next, slots, size, cache, lengths')
         == Contents(buffer, slots, size, cache - {id}, lengths)[id := value]
  {
    var next := WriteSlot(buffer, slots, size, cache[id], value);
    var lengths' := lengths[id := KeyLengths(value)];
    WriteHolds(buffer, slots, size, cache, lengths, id, value);
    WriteSlotHolds(buffer, slots, size, cache[id], value);
    var was, now := Contents(buffer, slots, size, cache - {id}, lengths), Contents(next, slots, size, cache, lengths');
    assert now.Keys == was.Keys + {id};
    forall other | other in cache && other != id ensures now[other] == was[other] {
      WriteOther(buffer, slots, size, cache, lengths, id, value, other);
    }
  }

  /** Relocation keeps what every id holds. */
  lemma {:induction false} GrowContents<Row>(buffer: Flat<Row>, oldSize: nat, grown: Flat<Row>, newSize: nat,
        slots: nat, cache: map<int, nat>, lengths: map<int, map<Key, nat>>)
    requires Holds(buffer, slots, oldSize, cache, lengths) && oldSize <= newSize
    requires grown.Keys == buffer.Keys && BufferOk(grown, slots, newSize)
    requires forall id :: id in cache ==> SameSlot(buffer, oldSize, grown, newSize, slots, cache[id], oldSize)
    ensures Holds(grown, slots, newSize, cache, lengths)
    ensures Contents(grown, slots, newSize, cache, lengths) == Contents(buffer, slots, oldSize, cache, lengths)
  {
    forall id | id in cache
      ensures LengthsOk(grown, newSize, lengths[id])
      ensures RowsOf(grown, slots, newSize, cache[id], lengths[id])
        == RowsOf(buffer, slots, oldSize, cache[id], lengths[id])
    {
      SameSlotSameRows(buffer, oldSize, grown, newSize, slots, cache[id], lengths[id]);
    }
  }

  /** Dropping ids drops what they hold. */
  lemma {:induction false} DropContents<Row>(buffer: Flat<Row>, slots: nat, size: nat, cache: map<int, nat>,
        lengths: map<int, map<Key, nat>>, gone: set<int>)
    requires Holds(buffer, slots, size, cache, lengths)
    ensures Holds(buffer, slots, size, cache - gone, lengths - gone)
    ensures Holds(buffer, slots, size, cache - gone, lengths)
    ensures Contents(buffer, slots, size, cache - gone, lengths - gone)
      == Contents(buffer, slots, size, cache, lengths) - gone
    ensures Contents(buffer, slots, size, cache - gone, lengths) == Contents(buffer, slots, size, cache, lengths) - gone
  {
    var kept, all := cache - gone, Contents(buffer, slots, size, cache, lengths);
    assert kept.Keys == cache.Keys - gone && (all - gone).Keys == cache.Keys - gone;
    assert forall id :: id in kept ==>
      kept[id] == cache[id] && id in lengths - gone && (lengths - gone)[id] == lengths[id];
  }

  /** The id that a new one displaces, if any. */
  function Displaced(r: Ring): set<int> {
    if r.last in r.slotToId then {r.slotToId[r.last]} else {}
  }

  lemma {:induction false} ClaimDisplaces(r: Ring, id: int)
    requires RingOk(r) && id !in r.cache
    ensures RingOk(Claim(r, id)) && OwnSlots(Claim(r, id).cache)
    ensures id in Claim(r, id).cache && Claim(r, id).cache[id] == r.last
    ensures Claim(r, id).cache - {id} == r.cache - Displaced(r)
    ensures |r.cache| == r.size ==> Displaced(r) == {RingOrder(r)[0]}
    ensures |r.cache| < r.size ==> Displaced(r) == {}
  {
    ClaimOk(r, id);
    ClaimOrder(r, id);
    RingOwnSlots(Claim(r, id));
  }

  /** Claiming a slot drops the displaced id and leaves the other ids what they hold. */
  lemma {:induction false} ClaimHolds<Row>(buffer: Flat<Row>, size: nat, r: Ring, lengths: map<int, map<Key, nat>>,
        id: int)
    requires RingOk(r) && id !in r.cache && Holds(buffer, r.size, size, r.cache, lengths)
    ensures Holds(buffer, r.size, size, Claim(r, id).cache - {id}, lengths - Displaced(r))
    ensures Contents(buffer, r.size, size, Claim(r, id).cache - {id}, lengths - Displaced(r))
      == Contents(buffer, r.size, size, r.cache, lengths) - Displaced(r)
  {
    ClaimDisplaces(r, id);
    DropContents(buffer, r.size, size, r.cache, lengths, Displaced(r));
  }

  lemma {:induction false} RingOwnSlots(r: Ring)
    requires RingOk(r)
    ensures OwnSlots(r.cache)
  {
    forall a, b | a in r.cache && b in r.cache && a != b ensures r.cache[a] != r.cache[b] {
      assert r.slotToId[r.cache[a]] == a && r.slotToId[r.cache[b]] == b;
    }
  }

  lemma {:induction false} PutOfNew<Row>(order: seq<int>, vals: map<int, Flat<Row>>, size: nat, id: int,
        value: Flat<Row>)
    requires size > 0 && |order| <= size && id !in vals
    ensures FifoPut(Fifo(order, vals), size, id, value) ==
      if |order| == size then Fifo(order[1..] + [id], (vals - {order[0]})[id := value])
      else Fifo(order + [id], (vals - {})[id := value])
  {
    assert vals - {} == vals;
  }

  lemma {:induction false} PutOfCached<Row>(order: seq<int>, vals: map<int, Flat<Row>>, size: nat, id: int,
        value: Flat<Row>)
    requires id in vals
    ensures FifoPut(Fifo(order, vals), size, id, value) == Fifo(order, (vals - {id})[id := value])
  {
    assert (vals - {id})[id := value] == vals[id := value];
  }

  /** Claiming and then writing the claimed slot is a put of a new id. */
  lemma {:induction false} ClaimIsPut<Row>(buffer: Flat<Row>, size: nat, r: Ring, lengths: map<int, map<Key, nat>>,
        id: int, value: Flat<Row>)
    requires RingOk(r) && id !in r.cache && Holds(buffer, r.size, size, r.cache, lengths)
    ensures var r' := Claim(r, id);
      var kept := lengths - Displaced(r);
      && RingOk(r') && OwnSlots(r'.cache) && id in r'.cache && r'.cache[id] < r.size
      && Holds(buffer, r.size, size, r'.cache - {id}, kept)
      && FifoPut(Fifo(RingOrder(r), Contents(buffer, r.size, size, r.cache, lengths)), r.size, id, value)
        == Fifo(RingOrder(r'), Contents(buffer, r.size, size, r'.cache - {id}, kept)[id := value])
  {
    ClaimDisplaces(r, id);
    ClaimOrder(r, id);
    ClaimHolds(buffer, size, r, lengths, id);
    PutOfNew(RingOrder(r), Contents(buffer, r.size, size, r.cache, lengths), r.size, id, value);
  }

  /** Writing the slot of a cached id is a put of that id. */
  lemma {:induction false} RewriteIsPut<Row>(buffer: Flat<Row>, size: nat, r: Ring, lengths: map<int, map<Key, nat>>,
        id: int, value: Flat<Row>)
    requires RingOk(r) && id in r.cache && Holds(buffer, r.size, size, r.cache, lengths)
    ensures OwnSlots(r.cache) && Holds(buffer, r.size, size, r.cache - {id}, lengths)
    ensures FifoPut(Fifo(RingOrder(r), Contents(buffer, r.size, size, r.cache, lengths)), r.size, id, value)
      == Fifo(RingOrder(r), Contents(buffer, r.size, size, r.cache - {id}, lengths)[id := value])
  {
    RingOwnSlots(r);
    DropContents(buffer, r.size, size, r.cache, lengths, {id});
    PutOfCached(RingOrder(r), Contents(buffer, r.size, size, r.cache, lengths), r.size, id, value);
  }

  // ---------------------------------------------------------------- the class

  class TrajectoryCache<Row(0)> {
    const maxSize: nat
    var cache: map<int, nat>
    var buffer: Flat<Row>
    /** The slot length; None until the first put allocates the buffer. */
    var slotLen: Option<nat>
    var keyLengths: map<int, map<Key, nat>>
    var lastSlot: nat
    var slotToId: map<nat, int>

    ghost function ToRing(): Ring
      reads this
    {
      Ring(maxSize, cache, slotToId, lastSlot)
    }

    ghost function Size(): nat
      reads this
    {
      if slotLen.Some? then slotLen.value else 0
    }

    ghost predicate Valid()
      reads this
    {
      && RingOk(ToRing())
      && Holds(buffer, maxSize, Size(), cache, keyLengths)
      && (if slotLen.Some? then buffer != map[] else cache == map[] && buffer == map[])
    }

    constructor (maxSize: nat)
      requires maxSize > 0
      ensures Valid() && this.maxSize == maxSize && View() == EmptyFifo() && slotLen.None?
    {
      this.maxSize := maxSize;
      cache, buffer, slotLen, keyLengths, lastSlot, slotToId := map[], map[], None, map[], 0, map[];
    }

    ghost function View(): Fifo<Row>
      requires Valid()
      reads this
    {
      Fifo(RingOrder(ToRing()), Contents(buffer, maxSize, Size(), cache, keyLengths))
    }

    method Get(id: int) returns (r: Option<Flat<Row>>)
      requires Valid()
      ensures r == FifoGet(View(), id)
    {
      if id !in cache || slotLen.None? {
        return None;
      }
      var slot := cache[id];
      SlotBounds(maxSize, slotLen.value, slot);
      var start := slot * slotLen.value;
      r := Some(map k | k in buffer :: buffer[k][start..start + keyLengths[id][k]]);
      assert r.value == RowsOf(buffer, maxSize, slotLen.value, slot, keyLengths[id]);
    }

    method Clear()
      requires Valid()
      modifies this
      ensures Valid() && View() == EmptyFifo() && slotLen.None?
    {
      cache, buffer, slotLen, keyLengths, lastSlot, slotToId := map[], map[], None, map[], 0, map[];
    }

    /** `_ensure_capacity`: allocates the buffer, or grows its slots and relocates what they hold. */
    method EnsureCapacity(most: nat, keys: set<Key>)
      requires Holds(buffer, maxSize, Size(), cache, keyLengths)
      requires if slotLen.None? then cache == map[] else keys == buffer.Keys
      modifies this`buffer, this`slotLen
      ensures slotLen.Some? && most <= slotLen.value && buffer.Keys == keys
      ensures Holds(buffer, maxSize, Size(), cache, keyLengths)
      ensures Contents(buffer, maxSize, Size(), cache, keyLengths)
        == old(Contents(buffer, maxSize, Size(), cache, keyLengths))
    {
      if slotLen.None? {
        slotLen := Some(most);
        buffer := Allocate<Row>(keys, maxSize * most);
      } else if most > slotLen.value {
        ghost var was, size := buffer, slotLen.value;
        var inUse := set id | id in cache :: cache[id];
        buffer := Relocate<Row>(buffer, maxSize, slotLen.value, most, inUse);
        slotLen := Some(most);
        GrowContents(was, size, buffer, most, maxSize, cache, keyLengths);
      }
    }

    /** Takes the next slot of the ring for a new id, evicting the id that held it. */
    method ClaimSlot(id: int) returns (slot: nat)
      requires lastSlot < maxSize && id !in cache
      modifies this`cache, this`slotToId, this`lastSlot, this`keyLengths
      ensures ToRing() == Claim(old(ToRing()), id) && slot == old(lastSlot)
      ensures keyLengths == old(keyLengths) - Displaced(old(ToRing()))
    {
      slot := lastSlot;
      if slot in slotToId {
        var evicted := slotToId[slot];
        if evicted in cache {
          cache := cache - {evicted};
        } else {
          assert cache - {evicted} == cache;
        }
        keyLengths := keyLengths - {evicted};
      } else {
        assert keyLengths - {} == keyLengths;
      }
      slotToId := slotToId[slot := id];
      cache := cache[id := slot];
      lastSlot := Successor(lastSlot, maxSize);
    }

    /** Writes a trajectory into the slot of its id. */
    method WriteTo(id: int, value: Flat<Row>)
      requires slotLen.Some? && id in cache && cache[id] < maxSize && OwnSlots(cache) && value.Keys == buffer.Keys
      requires Holds(buffer, maxSize, Size(), cache - {id}, keyLengths)
      requires forall k :: k in value ==> |value[k]| <= slotLen.value
      modifies this`buffer, this`keyLengths
      ensures buffer.Keys == old(buffer.Keys) && Holds(buffer, maxSize, Size(), cache, keyLengths)
      ensures Contents(buffer, maxSize, Size(), cache, keyLengths)
        == old(Contents(buffer, maxSize, Size(), cache - {id}, keyLengths))[id := value]
    {
      WriteContents(buffer, maxSize, Size(), cache, keyLengths, id, value);
      buffer := WriteSlot(buffer, maxSize, slotLen.value, cache[id], value);
      keyLengths := keyLengths[id := KeyLengths(value)];
    }

    /** `put`: fails exactly on a trajectory without tensors. */
    method Put(id: int, value: Flat<Row>) returns (r: Result<()>)
      requires Valid()
      requires value != map[] && slotLen.Some? ==> value.Keys == buffer.Keys
      modifies this
      ensures Valid()
      ensures value == map[] ==> r == Err(ValueError) && View() == old(View()) && slotLen == old(slotLen)
      ensures value != map[] ==> r == Ok(()) && View() == FifoPut(old(View()), maxSize, id, value)
      ensures value != map[] ==> slotLen.Some? && buffer.Keys == value.Keys
    {
      if value == map[] {
        return Err(ValueError);
      }
      var most := MaxNumSamples(KeyLengths(value));
      EnsureCapacity(most, value.Keys);
      if id in cache {
        PutCached(id, value);
      } else {
        PutNew(id, value);
      }
      r := Ok(());
    }

    method PutCached(id: int, value: Flat<Row>)
      requires Valid() && slotLen.Some? && id in cache && value.Keys == buffer.Keys
      requires forall k :: k in value ==> |value[k]| <= slotLen.value
      modifies this`buffer, this`keyLengths
      ensures Valid() && buffer.Keys == old(buffer.Keys)
      ensures View() == FifoPut(old(View()), maxSize, id, value)
    {
      ghost var put, ring := FifoPut(View(), maxSize, id, value), ToRing();
      RewriteIsPut(buffer, Size(), ring, keyLengths, id, value);
      WriteTo(id, value);
      assert ToRing() == ring;
      assert View() == put;
    }

    method PutNew(id: int, value: Flat<Row>)
      requires Valid() && slotLen.Some? && id !in cache && value.Keys == buffer.Keys
      requires forall k :: k in value ==> |value[k]| <= slotLen.value
      modifies this`buffer, this`keyLengths, this`cache, this`slotToId, this`lastSlot
      ensures Valid() && buffer.Keys == old(buffer.Keys)
      ensures View() == FifoPut(old(View()), maxSize, id, value)
    {
      ghost var put := FifoPut(View(), maxSize, id, value);
      ClaimIsPut(buffer, Size(), ToRing(), keyLengths, id, value);
      var slot := ClaimSlot(id);
      WriteTo(id, value);
      assert View() == put;
    }
  }
}
