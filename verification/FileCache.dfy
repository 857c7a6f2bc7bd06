/** The block cache of FrameWork/CommonUtilitiesLib-linux-windows/OSFileSource.cpp:
    a limited number of buffers, one per block of the file, given up in least
    recently used order.  The file does not change and disk reads do not fail. */
module FileCache {
  import opened MachineTypes
  import opened SeqFacts
  import opened Timeouts

  type Id = int

  /** `FileBlockBuffer`: which block it holds (-1 for none), and how much of it. */
  datatype Block = Block(arrayIndex: int, fillSize: nat, data: seq<char>)

  const UINT64_SPAN := 0x1_0000_0000_0000_0000
  const BUFFER_UNIT_SIZE := 32768

  function Min(a: int, b: int): int {
    if a <= b then a else b
  }

  /** What a read of `len` bytes at `pos` yields without a cache. */
  function Slice(file: seq<char>, pos: nat, len: nat): seq<char> {
    if pos >= |file| then [] else file[pos..Min(pos + len, |file|)]
  }

  /** Two reads in a row are one longer read. */
  lemma SliceSplits(file: seq<char>, pos: nat, a: nat, b: nat)
    ensures Slice(file, pos, a + b) == Slice(file, pos, a) + Slice(file, pos + a, b)
  {
  }

  // ------------------------------------------------------- what stays consistent

  /** Slot `i` of the map holds a buffer if and only if that buffer's index is `i`. */
  ghost predicate Bijection(slots: seq<Option<Id>>, bufs: map<Id, Block>) {
    && (forall i :: 0 <= i < |slots| && slots[i].Some? ==>
          slots[i].value in bufs && bufs[slots[i].value].arrayIndex == i)
    && (forall id :: id in bufs ==>
          0 <= bufs[id].arrayIndex < |slots| && slots[bufs[id].arrayIndex] == Some(id))
  }

  /** The queue holds exactly the buffers of the pool, each once. */
  ghost predicate Queued(queue: seq<Id>, bufs: map<Id, Block>) {
    && (forall id :: id in queue <==> id in bufs)
    && Distinct(queue)
  }

  /** The queue is in the order of last use, the least recent use first. */
  ghost predicate InUseOrder(queue: seq<Id>, stamp: map<Id, nat>, clock: nat) {
    && (forall i :: 0 <= i < |queue| ==> queue[i] in stamp && stamp[queue[i]] < clock)
    && (forall i, j :: 0 <= i < j < |queue| ==> stamp[queue[i]] < stamp[queue[j]])
  }

  /** The buffer holds what the disk holds at its block. */
  ghost predicate Filled(file: seq<char>, size: nat, b: Block) {
    && 0 <= b.arrayIndex && |b.data| == size && b.fillSize <= size
    && b.data[..b.fillSize] == Slice(file, b.arrayIndex * size, size)
  }

  /** All buffers are filled, except perhaps the one of block `skip`. */
  ghost predicate AllFilled(file: seq<char>, size: nat, bufs: map<Id, Block>, skip: int) {
    forall id :: id in bufs ==> |bufs[id].data| == size && (bufs[id].arrayIndex != skip ==> Filled(file, size, bufs[id]))
  }

  lemma BijectionWithout(slots: seq<Option<Id>>, bufs: map<Id, Block>, id: Id)
    requires Bijection(slots, bufs) && id in bufs
    ensures Bijection(slots[bufs[id].arrayIndex := None], bufs - {id})
  {
  }

  lemma QueuedWithout(queue: seq<Id>, bufs: map<Id, Block>)
    requires Queued(queue, bufs) && queue != []
    ensures queue[0] in bufs && Queued(queue[1..], bufs - {queue[0]})
  {
    var first := queue[0];
    assert first in queue && first in bufs;
    assert queue == [first] + queue[1..];
    assert forall i :: 0 <= i < |queue| - 1 ==> queue[1..][i] == queue[i + 1];
  }

  lemma InUseOrderWithout(queue: seq<Id>, stamp: map<Id, nat>, clock: nat)
    requires InUseOrder(queue, stamp, clock) && queue != []
    ensures InUseOrder(queue[1..], stamp, clock)
  {
    assert forall i :: 0 <= i < |queue| - 1 ==> queue[1..][i] == queue[i + 1];
  }

  ghost predicate Distinct(queue: seq<Id>) {
    forall i, j :: 0 <= i < j < |queue| ==> queue[i] != queue[j]
  }

  lemma MovedIsDistinct(queue: seq<Id>, id: Id)
    requires Distinct(queue)
    ensures Distinct(Without(queue, id) + [id])
  {
    var at := WithoutAt(queue, id);
    var w := Without(queue, id);
    WithoutLess(queue, id);
    forall i, j | 0 <= i < j < |w| + 1 ensures (w + [id])[i] != (w + [id])[j] {
      if j < |w| {
        assert w[i] == queue[if i < at then i else i + 1] && w[j] == queue[if j < at then j else j + 1];
      } else {
        assert w[i] in w;
      }
    }
  }

  /** What is cut off at the head was used before everything that stays. */
  lemma HeadIsOlder(queue: seq<Id>, stamp: map<Id, nat>, clock: nat, n: nat)
    requires InUseOrder(queue, stamp, clock) && n <= |queue|
    ensures forall x, y :: x in queue && x !in queue[n..] && y in queue[n..] ==>
      x in stamp && y in stamp && stamp[x] < stamp[y]
  {
    forall x, y | x in queue && x !in queue[n..] && y in queue[n..]
      ensures x in stamp && y in stamp && stamp[x] < stamp[y]
    {
      var i :| 0 <= i < |queue| && queue[i] == x;
      assert forall l :: n <= l < |queue| ==> queue[n..][l - n] == queue[l];
      assert i < n;
      var j :| 0 <= j < |queue| - n && queue[n..][j] == y;
      assert queue[n + j] == y;
    }
  }

  /** Moving a buffer to the tail keeps the queue. */
  lemma MovedIsQueued(queue: seq<Id>, bufs: map<Id, Block>, id: Id)
    requires Distinct(queue) && id in bufs && forall x :: x in queue || x == id <==> x in bufs
    ensures Queued(Without(queue, id) + [id], bufs)
  {
    MovedIsDistinct(queue, id);
    WithoutMembers(queue, id);
  }

  lemma RestInOrder(queue: seq<Id>, stamp: map<Id, nat>, clock: nat, at: nat)
    requires InUseOrder(queue, stamp, clock) && at < |queue|
    ensures InUseOrder(RemoveAt(queue, at), stamp, clock)
  {
    var r := RemoveAt(queue, at);
    assert forall i :: 0 <= i < |r| ==> r[i] == queue[if i < at then i else i + 1];
  }

  lemma TailInOrder(queue: seq<Id>, stamp: map<Id, nat>, clock: nat, id: Id)
    requires InUseOrder(queue, stamp, clock) && forall i :: 0 <= i < |queue| ==> queue[i] != id
    ensures InUseOrder(queue + [id], stamp[id := clock], clock + 1)
  {
  }

  /** The buffer at the tail is the one used last. */
  lemma MovedIsInOrder(queue: seq<Id>, stamp: map<Id, nat>, clock: nat, id: Id)
    requires InUseOrder(queue, stamp, clock) && Distinct(queue)
    ensures InUseOrder(Without(queue, id) + [id], stamp[id := clock], clock + 1)
  {
    var at := WithoutAt(queue, id);
    var w := Without(queue, id);
    if at < |queue| {
      RestInOrder(queue, stamp, clock, at);
    }
    WithoutLess(queue, id);
    forall i | 0 <= i < |w| ensures w[i] != id {
      assert w[i] in w;
    }
    TailInOrder(w, stamp, clock, id);
  }

  /** An unused block gets a buffer that is new or that held another block. */
  lemma Installed(slots: seq<Option<Id>>, bufs: map<Id, Block>, id: Id, idx: int, b: Block)
    requires Bijection(slots, bufs) && 0 <= idx < |slots| && slots[idx] == None && b.arrayIndex == idx
    ensures Bijection((if id in bufs then slots[bufs[id].arrayIndex := None] else slots)[idx := Some(id)], bufs[id := b])
  {
  }

  lemma InstalledFilled(file: seq<char>, size: nat, bufs: map<Id, Block>, id: Id, b: Block)
    requires AllFilled(file, size, bufs, -1) && |b.data| == size && forall x :: x in bufs ==> bufs[x].arrayIndex >= 0
    ensures AllFilled(file, size, bufs[id := b], b.arrayIndex)
  {
  }

  /** The least recently used buffer. */
  ghost predicate IsOldest(id: Id, bufs: map<Id, Block>, stamp: map<Id, nat>) {
    id in bufs && forall x :: x in bufs && x != id ==> id in stamp && x in stamp && stamp[id] < stamp[x]
  }

  lemma OldestAtHead(queue: seq<Id>, bufs: map<Id, Block>, stamp: map<Id, nat>, clock: nat)
    requires Queued(queue, bufs) && InUseOrder(queue, stamp, clock)
    ensures queue != [] ==> IsOldest(queue[0], bufs, stamp)
  {
    if queue != [] {
      assert queue[0] in queue;
      forall x | x in bufs && x != queue[0] ensures x in stamp && stamp[queue[0]] < stamp[x] {
        var i :| 0 <= i < |queue| && queue[i] == x;
      }
    }
  }

  /** A buffer of the pool is marked as used last. */
  lemma MarkedIsQueued(queue: seq<Id>, bufs: map<Id, Block>, id: Id)
    requires Queued(queue, bufs) && id in bufs
    ensures Queued(Without(queue, id) + [id], bufs) && |Without(queue, id) + [id]| == |queue|
  {
    var at := WithoutAt(queue, id);
    MovedIsQueued(queue, bufs, id);
  }

  lemma NewIsQueued(queue: seq<Id>, bufs: map<Id, Block>, id: Id, b: Block)
    requires Queued(queue, bufs) && id !in bufs
    ensures id !in queue && Distinct(queue + [id]) && Queued(queue + [id], bufs[id := b])
  {
  }

  lemma HeadIsRequeued(queue: seq<Id>, bufs: map<Id, Block>)
    requires Queued(queue, bufs) && queue != []
    ensures queue[0] in bufs && Distinct(queue[1..]) && Queued(Without(queue[1..], queue[0]) + [queue[0]], bufs)
    ensures |Without(queue[1..], queue[0])| == |queue| - 1
  {
    assert queue[0] in queue && queue == [queue[0]] + queue[1..];
    HeadMoves(queue);
    MovedIsQueued(queue[1..], bufs, queue[0]);
  }

  // --------------------------------------------------------------- whole histories

  /** The length of the file, the block size, and the number of slots (0 without a cache). */
  datatype Geometry = Geometry(fileLen: nat, blockSize: nat, slots: nat)

  datatype Op = Inc | Dec | ReadAt(pos: nat, len: nat)

  /** The read goes through the cache and starts within the file. */
  predicate NeedsCache(g: Geometry, pos: nat, len: nat) {
    g.slots > 0 && g.blockSize > 0 && (pos + len) % UINT64_SPAN / g.blockSize < g.slots && pos < g.fileLen
  }

  /** The limit after an operation, with the increment `inc`. */
  function NextLimit(limit: nat, inc: nat, op: Op): nat {
    match op
    case Inc => (limit + inc) % UINT32_SPAN
    case Dec => if limit > inc then limit - inc else limit
    case ReadAt(_, _) => limit
  }

  function LimitAfter(limit: nat, inc: nat, ops: seq<Op>): nat
    decreases |ops|
  {
    if ops == [] then limit else LimitAfter(NextLimit(limit, inc, ops[0]), inc, ops[1..])
  }

  /** No read that needs the cache finds the limit at 0. */
  predicate GoesThrough(g: Geometry, limit: nat, inc: nat, ops: seq<Op>)
    decreases |ops|
  {
    ops == [] ||
    ((ops[0].ReadAt? && NeedsCache(g, ops[0].pos, ops[0].len) ==> limit >= 1)
     && GoesThrough(g, NextLimit(limit, inc, ops[0]), inc, ops[1..]))
  }

  /** What the reads of a history yield without a cache. */
  function Expected(file: seq<char>, ops: seq<Op>): seq<seq<char>> {
    if ops == [] then []
    else (if ops[0].ReadAt? then [Slice(file, ops[0].pos, ops[0].len)] else []) + Expected(file, ops[1..])
  }

  /** No increment of the history brings the limit to 0. */
  predicate NeverWraps(limit: nat, inc: nat, ops: seq<Op>)
    decreases |ops|
  {
    ops == [] || ((ops[0].Inc? ==> (limit + inc) % UINT32_SPAN != 0) && NeverWraps(NextLimit(limit, inc, ops[0]), inc, ops[1..]))
  }

  /** Whether every read of a history is exact depends on the increments only: if none
      brings the limit to 0, every history of reads among them goes through. */
  lemma {:induction false} NeverWrapsGoesThrough(g: Geometry, limit: nat, inc: nat, ops: seq<Op>)
    requires limit >= 1 && NeverWraps(limit, inc, ops)
    ensures GoesThrough(g, limit, inc, ops) && LimitAfter(limit, inc, ops) >= 1
    decreases |ops|
  {
    if ops != [] {
      NeverWrapsGoesThrough(g, NextLimit(limit, inc, ops[0]), inc, ops[1..]);
    }
  }

  /** With reads that need the cache after every operation, a history goes through
      exactly if no increment in it brings the limit to 0. */
  lemma {:induction false} WatchedIff(g: Geometry, limit: nat, inc: nat, ops: seq<Op>, pos: nat, len: nat)
    requires limit >= 1 && NeedsCache(g, pos, len)
    ensures GoesThrough(g, limit, inc, Watched(ops, pos, len)) <==> NeverWraps(limit, inc, ops)
    decreases |ops|
  {
    if ops != [] {
      var next, rest := NextLimit(limit, inc, ops[0]), Watched(ops[1..], pos, len);
      assert Watched(ops, pos, len)[1..] == [ReadAt(pos, len)] + rest;
      assert ([ReadAt(pos, len)] + rest)[1..] == rest;
      if next >= 1 {
        WatchedIff(g, next, inc, ops[1..], pos, len);
      }
    }
  }

  /** The history with the same read after each of its operations. */
  function Watched(ops: seq<Op>, pos: nat, len: nat): seq<Op> {
    if ops == [] then [] else [ops[0], ReadAt(pos, len)] + Watched(ops[1..], pos, len)
  }

  /** An increment as large as the limit, 2^31, brings the limit to 0, and the next read
      of a file of one byte fails. */
  lemma LimitWraps()
    ensures var g := Geometry(1, BUFFER_UNIT_SIZE, 1);
      !GoesThrough(g, 0x8000_0000, 0x8000_0000, [Inc, ReadAt(0, 1)])
  {
    assert [Inc, ReadAt(0, 1)][1..] == [ReadAt(0, 1)];
    assert NeedsCache(Geometry(1, BUFFER_UNIT_SIZE, 1), 0, 1);
  }

  // ------------------------------------------------------- the size of a block

  /** `SetBufferUnitSize`, in bytes: a product of 32-bit numbers. */
  function UnitBytes(unitSizeInK: nat): nat {
    (if unitSizeInK < 1 then 1 else unitSizeInK) * 1024 % UINT32_SPAN
  }

  /** The number of units is to be computed, with a unit of 0 bytes. */
  predicate NoUnit(unitSizeInK: nat, numBuffUnits: nat) {
    numBuffUnits == 0 && UnitBytes(unitSizeInK) == 0
  }

  /** The number of units in a block: as asked for, or from the bit rate (a product of
      32-bit numbers if none is given) up to a maximum, but at least one. */
  function UnitsFor(unitSizeInK: nat, numBuffUnits: nat, maxBlocks: nat, bitRate: nat): (units: nat)
    requires !NoUnit(unitSizeInK, numBuffUnits)
    ensures units >= 1 && (numBuffUnits == 0 ==> units <= maxBlocks || units == 1)
  {
    if numBuffUnits > 0 then numBuffUnits
    else
      var unit := UnitBytes(unitSizeInK);
      var rate := if bitRate == 0 then maxBlocks * unit % UINT32_SPAN else bitRate;
      var units := Min(rate / unit, maxBlocks);
      if units < 1 then 1 else units
  }

  /** The parameters for which nothing is divided by zero. */
  predicate CanAllocate(unitSizeInK: nat, numBuffUnits: nat, maxBlocks: nat, bitRate: nat) {
    !NoUnit(unitSizeInK, numBuffUnits) && UnitsFor(unitSizeInK, numBuffUnits, maxBlocks, bitRate) % 0x2_0000 != 0
  }

  /** A block of 32-kilobyte units is empty, as a 32-bit number, exactly for a multiple
      of 2^17 units. */
  lemma EmptyBlockIff(units: nat)
    ensures units * BUFFER_UNIT_SIZE % UINT32_SPAN == 0 <==> units % 0x2_0000 == 0
  {
    var n, r := units / 0x2_0000, units % 0x2_0000;
    assert units * BUFFER_UNIT_SIZE == n * UINT32_SPAN + r * BUFFER_UNIT_SIZE;
    RestOfSpans(n, r * BUFFER_UNIT_SIZE);
  }

  lemma RestOfSpans(n: nat, r: nat)
    requires r < UINT32_SPAN
    ensures (n * UINT32_SPAN + r) % UINT32_SPAN == r
  {
  }

  /** The default parameters work, the 2^17 units below do not, and neither does a unit
      of 2^22 kilobytes from which the number of units is to be computed. */
  lemma SomeParameters(incCount: nat, maxBlocks: nat, bitRate: nat)
    ensures CanAllocate(32, 0, 8, 32768) && UnitsFor(32, 0, 8, 32768) == 1
    ensures !CanAllocate(32, 0x2_0000, maxBlocks, bitRate)
    ensures !CanAllocate(0x40_0000, 0, maxBlocks, bitRate)
  {
    assert 32768 / UnitBytes(32) == 1;
    assert 0x40_0000 * 1024 % UINT32_SPAN == 0;
  }

  class FileSource {
    const file: seq<char>

    var cacheEnabled: bool
    var mapArray: array?<Option<Id>>      // fFileMapArray
    var bufSize: nat                      // fDataBufferSize
    var numUnits: nat                     // fNumBuffSizeUnits

    // FileBlockPool: the queue has the least recently used buffer at its head
    var queue: seq<Id>
    var bufs: map<Id, Block>
    var maxBuffers: nat
    var numCurrent: nat
    var bufferInc: nat
    var unitBytes: nat
    var nextId: Id

    // when each buffer was used last
    ghost var stamp: map<Id, nat>
    ghost var clock: nat

    ghost predicate Sizes()
      reads this, mapArray
    {
      && mapArray != null && 1 <= bufSize && mapArray.Length == |file| / bufSize + 1
      && bufferInc < UINT32_SPAN && numCurrent == |queue|
      && (forall id :: id in bufs ==> id < nextId)
    }

    /** The cache is set up and consistent, except that the buffer of block `skip`
        may not be filled yet. */
    ghost predicate Consistent(skip: int)
      reads this, mapArray
    {
      && Sizes() && Bijection(mapArray[..], bufs) && Queued(queue, bufs) && InUseOrder(queue, stamp, clock)
      && AllFilled(file, bufSize, bufs, skip)
    }

    /** A cache that has been set up is consistent. */
    ghost predicate Valid()
      reads this, mapArray
    {
      bufferInc < UINT32_SPAN && maxBuffers < UINT32_SPAN && (mapArray != null ==> Consistent(-1))
    }

    /** `fBufferInc` is not initialised: it is whatever was in memory. */
    constructor (file: seq<char>, memory: nat)
      requires memory < UINT32_SPAN
      ensures Valid() && mapArray == null && this.file == file && !cacheEnabled && maxBuffers == 1
    {
      this.file := file;
      cacheEnabled, mapArray, bufSize, numUnits := false, null, 0, 0;
      queue, bufs, maxBuffers, numCurrent, bufferInc, unitBytes, nextId := [], map[], 1, 0, memory, BUFFER_UNIT_SIZE, 0;
      stamp, clock := map[], 0;
    }

    // -------------------------------------------------------------- limits

    /** `IncMaxBuffers`: an addition of 32-bit numbers. */
    method IncMaxBuffers()
      modifies this`maxBuffers
      ensures old(Valid()) ==> Valid()
      ensures maxBuffers == (old(maxBuffers) + bufferInc) % UINT32_SPAN
    {
      maxBuffers := (maxBuffers + bufferInc) % UINT32_SPAN;
    }

    /** `DecMaxBuffers`: a positive limit stays positive. */
    method DecMaxBuffers()
      modifies this`maxBuffers
      ensures old(Valid()) ==> Valid()
      ensures maxBuffers == if old(maxBuffers) > bufferInc then old(maxBuffers) - bufferInc else old(maxBuffers)
      ensures old(maxBuffers) >= 1 ==> maxBuffers >= 1
    {
      if maxBuffers > bufferInc {
        maxBuffers := maxBuffers - bufferInc;
      }
    }

    // ----------------------------------------------------------- FileBlockPool

    /** Taking the head of the queue. */
    method DeQueue() returns (id: Id)
      requires queue != []
      modifies this`queue
      ensures id == old(queue)[0] && queue == old(queue)[1..]
    {
      id := queue[0];
      queue := queue[1..];
    }

    /** The least recently used buffer is deleted and its slot cleared. */
    method DeleteOldest()
      requires Consistent(-1) && queue != []
      modifies this`queue, this`bufs, this`numCurrent, mapArray
      ensures Consistent(-1) && queue == old(queue)[1..] && bufs == old(bufs) - {old(queue)[0]}
    {
      QueuedWithout(queue, bufs);
      InUseOrderWithout(queue, stamp, clock);
      BijectionWithout(mapArray[..], bufs, queue[0]);
      var id := DeQueue();
      mapArray[bufs[id].arrayIndex] := None;
      bufs := bufs - {id};
      numCurrent := numCurrent - 1;
      assert mapArray[..] == old(mapArray[..])[old(bufs)[id].arrayIndex := None];
    }

    /** `DeleteOldBuffs`: the least recently used buffers are deleted while there
        are more than the limit. */
    method DeleteOldBuffs()
      requires Consistent(-1)
      modifies this`queue, this`bufs, this`numCurrent, mapArray
      ensures Consistent(-1) && |queue| == Min(|old(queue)|, maxBuffers)
      ensures queue == old(queue)[|old(queue)| - |queue|..]
      ensures forall id :: id in bufs ==> id in old(bufs) && bufs[id] == old(bufs)[id]
      ensures forall x, y :: x in old(bufs) && x !in bufs && y in bufs ==> x in stamp && y in stamp && stamp[x] < stamp[y]
    {
      ghost var n := 0;
      while numCurrent > maxBuffers
        invariant Consistent(-1) && 0 <= n <= |old(queue)| && queue == old(queue)[n..]
        invariant n > 0 ==> |queue| >= maxBuffers
        invariant forall id :: id in bufs ==> id in old(bufs) && bufs[id] == old(bufs)[id]
        decreases numCurrent
      {
        DeleteOldest();
        n := n + 1;
      }
      HeadIsOlder(old(queue), stamp, clock, n);
    }

    /** `MarkUsed`: the buffer goes to the tail of the queue. */
    method MarkUsed(id: Id)
      requires InUseOrder(queue, stamp, clock) && Distinct(queue)
      modifies this`queue, this`stamp, this`clock
      ensures queue == Without(old(queue), id) + [id]
      ensures stamp == old(stamp)[id := old(clock)] && clock == old(clock) + 1
      ensures InUseOrder(queue, stamp, clock) && Distinct(queue)
    {
      MovedIsInOrder(queue, stamp, clock, id);
      MovedIsDistinct(queue, id);
      if queue == [] || queue[|queue| - 1] != id {
        queue := Without(queue, id);
        queue := queue + [id];
      } else {
        LastMoves(queue);
      }
      stamp := stamp[id := clock];
      clock := clock + 1;
    }

    /** `GetBufferElement`: a new buffer while there are fewer than the limit, else
        the least recently used one, and none if the queue is empty. */
    method GetBufferElement() returns (r: Option<Id>)
      requires Consistent(-1)
      modifies this`queue, this`bufs, this`numCurrent, this`nextId, this`stamp, this`clock
      ensures r.None? <==> maxBuffers == 0 && old(queue) == []
      ensures if r.None? then queue == [] && bufs == old(bufs) && numCurrent == old(numCurrent)
        else if old(numCurrent) < maxBuffers
        then r.value !in old(bufs) && queue == old(queue) + [r.value] && numCurrent == old(numCurrent) + 1
          && bufs == old(bufs)[r.value := Block(-1, 0, seq(bufSize, _ => '\0'))]
        else r.value == old(queue)[0] && queue == old(queue)[1..] && bufs == old(bufs) && numCurrent == old(numCurrent)
      ensures InUseOrder(queue, stamp, clock) && forall x :: x in bufs ==> x < nextId
      ensures r.None? ==> Consistent(-1)
    {
      if numCurrent < maxBuffers {
        var id := nextId;
        r := Some(id);
        nextId := nextId + 1;
        bufs := bufs[id := Block(-1, 0, seq(bufSize, _ => '\0'))];
        numCurrent := numCurrent + 1;
        assert forall i :: 0 <= i < |queue| ==> queue[i] in queue;
        TailInOrder(queue, stamp, clock, id);
        queue := queue + [id];
        stamp, clock := stamp[id := clock], clock + 1;
      } else {
        if queue == [] {
          return None;
        }
        InUseOrderWithout(queue, stamp, clock);
        var id := DeQueue();
        r := Some(id);
      }
    }

    /** A buffer from the pool, marked as used last, if the pool has one. */
    method TakeBuffer() returns (r: Option<Id>)
      requires Consistent(-1) && |queue| <= maxBuffers
      modifies this`queue, this`bufs, this`numCurrent, this`nextId, this`stamp, this`clock
      ensures r.None? <==> maxBuffers == 0
      ensures r.None? ==> Consistent(-1) && queue == []
      ensures r.Some? ==> Taken(r.value, old(queue), old(bufs))
    {
      ghost var q, bs := queue, bufs;
      r := GetBufferElement();
      if r.None? {
        return;
      }
      var id := r.value;
      if |q| < maxBuffers {
        NewIsQueued(q, bs, id, bufs[id]);
        MarkedIsQueued(queue, bufs, id);
      } else {
        HeadIsRequeued(q, bs);
      }
      MarkUsed(id);
    }

    /** What the pool yields from the queue `q` and the buffers `bs`. */
    ghost predicate Taken(id: Id, q: seq<Id>, bs: map<Id, Block>)
      reads this
    {
      && id in bufs && Queued(queue, bufs) && InUseOrder(queue, stamp, clock) && numCurrent == |queue| <= maxBuffers
      && (forall x :: x in bufs ==> x < nextId)
      && if |q| < maxBuffers then id !in bs && bufs == bs[id := Block(-1, 0, seq(bufSize, _ => '\0'))]
         else q != [] && id == q[0] && bufs == bs && id in bs
    }

    /** The second half of `GetBuffer`, when block `idx` has no buffer: the buffer
        that the pool yields is entered in the map.  Without one, the code goes on
        through a null pointer; the model ends with None there. */
    method Install(idx: int) returns (r: Option<Id>)
      requires Consistent(-1) && |queue| <= maxBuffers
      requires 0 <= idx < mapArray.Length && mapArray[idx] == None
      modifies this`queue, this`bufs, this`numCurrent, this`nextId, this`stamp, this`clock, mapArray
      ensures r.None? <==> maxBuffers == 0
      ensures r.None? ==> Consistent(-1)
      ensures r.Some? ==> Consistent(idx) && r.value in bufs && bufs[r.value].arrayIndex == idx && |queue| <= maxBuffers
      ensures r.Some? ==> bufs == old(bufs)[r.value := bufs[r.value]]
      ensures r.Some? && r.value in old(bufs) ==> IsOldest(r.value, old(bufs), old(stamp))
    {
      OldestAtHead(queue, bufs, stamp, clock);
      ghost var bs, slots := bufs, mapArray[..];
      r := TakeBuffer();
      if r.None? {
        return;
      }
      var id := r.value;
      var before := bufs[id].arrayIndex;
      if before >= 0 {
        mapArray[before] := None;
      }
      mapArray[idx] := Some(id);
      bufs := bufs[id := bufs[id].(arrayIndex := idx)];
      Installed(slots, bs, id, idx, bufs[id]);
      InstalledFilled(file, bufSize, bs, id, bufs[id]);
      assert bufs == bs[id := bufs[id]];
      SameSlots(mapArray, slots, bs, id, idx);
    }

    static lemma SameSlots(a: array<Option<Id>>, slots: seq<Option<Id>>, bufs: map<Id, Block>, id: Id, idx: int)
      requires 0 <= idx < a.Length == |slots| && (id in bufs ==> 0 <= bufs[id].arrayIndex < |slots|)
      requires forall i :: 0 <= i < a.Length ==>
        a[i] == if i == idx then Some(id) else if id in bufs && i == bufs[id].arrayIndex then None else slots[i]
      ensures a[..] == (if id in bufs then slots[bufs[id].arrayIndex := None] else slots)[idx := Some(id)]
    {
    }

    /** A block that has a buffer: the buffer becomes the one used last. */
    method Touch(id: Id)
      requires Consistent(-1) && id in bufs
      modifies this`queue, this`stamp, this`clock
      ensures Consistent(-1) && |queue| == |old(queue)| && queue == Without(old(queue), id) + [id]
    {
      MarkedIsQueued(queue, bufs, id);
      MarkUsed(id);
    }

    /** `GetBuffer`: the buffer of block `idx`; `fill` says that it has to be read.
        The buffer is then the one used last, and what was given up for it was the
        least recently used.  There is one exactly if the limit is not 0. */
    method GetBuffer(idx: int) returns (r: Option<Id>, fill: bool)
      requires Consistent(-1) && 0 <= idx < mapArray.Length
      modifies this`queue, this`bufs, this`numCurrent, this`nextId, this`stamp, this`clock, mapArray
      ensures r.Some? <==> maxBuffers >= 1
      ensures r.None? ==> Consistent(-1)
      ensures r.Some? ==> Consistent(if fill then idx else -1) && r.value in bufs && bufs[r.value].arrayIndex == idx
      ensures r.Some? ==> |queue| <= maxBuffers
      ensures r.Some? ==> forall x :: x in bufs && x != r.value ==> x in old(bufs) && bufs[x] == old(bufs)[x]
      ensures r.Some? && fill && r.value in old(bufs) ==> forall x :: x in bufs && x != r.value ==>
        r.value in old(stamp) && x in old(stamp) && old(stamp)[r.value] < old(stamp)[x]
    {
      DeleteOldBuffs();
      fill := mapArray[idx] == None;
      if fill {
        r := Install(idx);
      } else {
        r := mapArray[idx];
        assert mapArray[..][idx] == r;
        Touch(r.value);
      }
    }

    // ------------------------------------------------------------------ reading

    /** `ReadFromPos` and `ReadFromDisk`: the bytes go to the start of `buf`. */
    method ReadFromPos(pos: nat, buf: array<char>, len: nat) returns (received: nat)
      requires len <= buf.Length
      modifies buf
      ensures received <= len && buf[..received] == Slice(file, pos, len)
    {
      received := if pos >= |file| then 0 else Min(len, |file| - pos);
      forall i | 0 <= i < received {
        buf[i] := file[pos + i];
      }
    }

    /** `FillBuffer`: the block is read from the disk into its buffer. */
    method FillBuffer(id: Id, idx: int)
      requires Consistent(idx) && id in bufs && bufs[id].arrayIndex == idx
      modifies this`bufs
      ensures Consistent(-1) && id in bufs && bufs[id].arrayIndex == idx
    {
      var block := Slice(file, idx * bufSize, bufSize);
      var b := bufs[id];
      bufs := bufs[id := b.(fillSize := |block|, data := block + b.data[|block|..])];
      assert bufs[id].data[..|block|] == block;
      FillKeepsMap(mapArray[..], old(bufs), id, bufs[id]);
    }

    /** The buffer of a block, filled. */
    method FilledBuffer(idx: int) returns (b: Option<Block>)
      requires Consistent(-1) && 0 <= idx < mapArray.Length
      modifies this`queue, this`bufs, this`numCurrent, this`nextId, this`stamp, this`clock, mapArray
      ensures Consistent(-1) && (b.Some? <==> maxBuffers >= 1)
      ensures b.Some? ==> Filled(file, bufSize, b.value) && b.value.arrayIndex == idx
    {
      var r, fill := GetBuffer(idx);
      if r.None? {
        return None;
      }
      if fill {
        FillBuffer(r.value, idx);
      }
      b := Some(bufs[r.value]);
    }

    /** How much of a block to copy from offset `at`, and whether the file is known
        to end there. */
    method Amount(fillSize: nat, at: nat, left: nat) returns (n: nat, end: bool)
      requires at <= fillSize
      ensures n == Min(left, fillSize - at)
      ensures end ==> n == fillSize - at && fillSize < bufSize
    {
      if at == 0 && left <= bufSize && fillSize < left {
        return fillSize, true;
      }
      n, end := left, false;
      if n >= fillSize - at {
        n := fillSize - at;
      }
    }

    /** `memcpy`. */
    static method Copy(data: seq<char>, at: nat, buf: array<char>, done: nat, n: nat)
      requires at + n <= |data| && done + n <= buf.Length
      modifies buf
      ensures buf[..done + n] == old(buf[..done]) + data[at..at + n]
    {
      ghost var before := buf[..done];
      forall i | 0 <= i < n {
        buf[done + i] := data[at + i];
      }
      ghost var copied := before + data[at..at + n];
      forall i | 0 <= i < done + n ensures buf[i] == copied[i] {
        assert i < done ==> before[i] == buf[i];
      }
    }

    /** One turn of the loop of `ReadFromCache`, after the buffer has been found:
        `n` bytes of block `b`, which starts at `start`, are copied from offset `at` on. */
    method CopyFromBlock(b: Block, start: nat, at: nat, buf: array<char>, done: nat, left: nat, ghost pos: nat)
        returns (n: nat, end: bool)
      requires 1 <= bufSize && Filled(file, bufSize, b) && start == b.arrayIndex * bufSize && done + left <= buf.Length
      requires at < bufSize && start + at <= |file|
      requires left > 0 ==> pos + done == start + at
      requires buf[..done] == Slice(file, pos, done) && pos <= |file|
      modifies buf
      ensures n == Min(left, Min(bufSize, |file| - start) - at) && buf[..done + n] == Slice(file, pos, done + n)
      ensures end ==> start + at + n == |file|
    {
      BlockSize(file, start, bufSize);
      n, end := Amount(b.fillSize, at, left);
      Copy(b.data, at, buf, done, n);
      PartOfPrefix(b.data, b.fillSize, at, at + n);
      InBlock(file, start, bufSize, b.data[..b.fillSize], at, n);
      SlicesJoin(file, pos, done, start + at, n);
    }

    /** Between two turns of the loop of `ReadFromCache`: `received` bytes have been
        copied, `left` are to come, the next one from offset `at` of block `k`. */
    ghost predicate Reading(k: nat, start: nat, at: nat, left: nat, received: nat, pos: nat)
      reads this, mapArray
    {
      && mapArray != null && start == k * bufSize && at < bufSize && pos <= |file|
      && (k < mapArray.Length ==> start + at <= |file|)
      && (left > 0 ==> pos + received == if k < mapArray.Length then start + at else |file|)
    }

    /** One turn of the loop of `ReadFromCache`; not `ok` is the use of a null pointer. */
    method ReadTurn(k: nat, start: nat, at: nat, buf: array<char>, received: nat, left: nat, ghost pos: nat)
        returns (ok: bool, n: nat, end: bool)
      requires Valid() && Reading(k, start, at, left, received, pos) && k < mapArray.Length
      requires received + left <= buf.Length && buf[..received] == Slice(file, pos, received)
      modifies this`queue, this`bufs, this`numCurrent, this`nextId, this`stamp, this`clock, mapArray, buf
      ensures Valid() && mapArray == old(mapArray) && n <= left && (ok <==> maxBuffers >= 1)
      ensures ok ==> buf[..received + n] == Slice(file, pos, received + n)
      ensures ok ==> if end then left > 0 ==> pos + received + n == |file|
              else Reading(k + 1, start + bufSize, 0, left - n, received + n, pos)
    {
      var b := FilledBuffer(k);
      if b.None? {
        return false, 0, true;
      }
      ok := true;
      n, end := CopyFromBlock(b.value, start, at, buf, received, left, pos);
      NextBlock(|file|, bufSize, k, start);
    }

    /** The loop of `ReadFromCache`, from block `first` on. */
    method ReadBlocks(first: nat, endIndex: nat, firstStart: nat, firstPos: nat, buf: array<char>, len: nat, ghost pos: nat)
        returns (ok: bool, received: nat)
      requires Valid() && Reading(first, firstStart, firstPos, len, 0, pos) && first <= endIndex < mapArray.Length && len <= buf.Length
      requires endIndex == (pos + len) / bufSize
      modifies this`queue, this`bufs, this`numCurrent, this`nextId, this`stamp, this`clock, mapArray, buf
      ensures Valid() && received <= len && (ok <==> maxBuffers >= 1)
      ensures ok ==> buf[..received] == Slice(file, pos, received) && (received < len ==> pos + received == |file|)
    {
      var buffIndex: nat, start: nat, buffPos: nat, left: nat := first, firstStart, firstPos, len;
      var end := false;
      ok, received := true, 0;
      while buffIndex <= endIndex && buffIndex < mapArray.Length && !end
        invariant Valid() && mapArray == old(mapArray) && (buffIndex > first || end ==> maxBuffers >= 1)
        invariant received + left == len && buf[..received] == Slice(file, pos, received)
        invariant if end then left > 0 ==> pos + received == |file| else Reading(buffIndex, start, buffPos, left, received, pos)
        decreases mapArray.Length - buffIndex, !end
      {
        var n;
        ok, n, end := ReadTurn(buffIndex, start, buffPos, buf, received, left, pos);
        if !ok {
          return;
        }
        received, left := received + n, left - n;
        if !end {
          start, buffPos, buffIndex := start + bufSize, 0, buffIndex + 1;
        }
      }
      if !end && left > 0 {
        EndOfRead(pos, len, bufSize, buffIndex, endIndex, received);
      }
    }

    /** `ReadFromCache`. */
    method ReadFromCache(pos: nat, buf: array<char>, len: nat) returns (ok: bool, received: nat)
      requires Valid() && mapArray != null && len <= buf.Length
      requires pos < |file| ==> (pos + len) / bufSize < mapArray.Length
      modifies this`queue, this`bufs, this`numCurrent, this`nextId, this`stamp, this`clock, mapArray, buf
      ensures Valid() && received <= len && (ok <==> maxBuffers >= 1 || pos >= |file|)
      ensures ok ==> buf[..received] == Slice(file, pos, len)
    {
      if pos >= |file| {
        return true, 0;
      }
      var buffIndex: nat, endIndex: nat := pos / bufSize, (pos + len) / bufSize;
      var start: nat := buffIndex * bufSize;
      Position(pos, bufSize);
      Blocks(pos, pos + len, bufSize);
      var buffPos: nat := pos - start;
      ok, received := ReadBlocks(buffIndex, endIndex, start, buffPos, buf, len, pos);
    }

    /** What decides where a read goes. */
    function Shape(): Geometry
      reads this, mapArray
    {
      Geometry(|file|, bufSize, if mapArray == null || !cacheEnabled then 0 else mapArray.Length)
    }

    /** `OSFileSource::Read`: the bytes of the file, whether they come from the cache
        or from the disk.  It fails exactly when it needs the cache and the limit is 0.
        The sum of position and length is a 64-bit number. */
    method Read(pos: nat, buf: array<char>, len: nat) returns (ok: bool, received: nat)
      requires Valid() && len <= buf.Length
      requires len < UINT32_SPAN && pos < UINT64_SPAN && |file| < UINT64_SPAN / 2
      modifies this`queue, this`bufs, this`numCurrent, this`nextId, this`stamp, this`clock, mapArray, buf
      ensures Valid() && mapArray == old(mapArray) && received <= len
      ensures ok <==> maxBuffers >= 1 || !NeedsCache(Shape(), pos, len)
      ensures ok ==> buf[..received] == Slice(file, pos, len)
    {
      if mapArray == null || !cacheEnabled || (pos + len) % UINT64_SPAN / bufSize > mapArray.Length - 1 {
        received := ReadFromPos(pos, buf, len);
        ok := true;
      } else {
        ok, received := ReadFromCache(pos, buf, len);
      }
    }

    /** A history of limit changes and reads: it goes through, and yields what reads
        of the file without a cache yield, exactly if no read that needs the cache
        finds the limit at 0. */
    method Replay(ops: seq<Op>) returns (ok: bool, results: seq<seq<char>>)
      requires Valid() && |file| < UINT64_SPAN / 2
      requires forall i :: 0 <= i < |ops| && ops[i].ReadAt? ==> ops[i].len < UINT32_SPAN && ops[i].pos < UINT64_SPAN
      modifies this`queue, this`bufs, this`numCurrent, this`nextId, this`stamp, this`clock, this`maxBuffers, mapArray
      ensures Valid() && (ok <==> GoesThrough(Shape(), old(maxBuffers), bufferInc, ops))
      ensures if ok then results == Expected(file, ops) && maxBuffers == LimitAfter(old(maxBuffers), bufferInc, ops)
              else results <= Expected(file, ops)
    {
      results := [];
      var i := 0;
      assert ops[0..] == ops;
      while i < |ops|
        invariant 0 <= i <= |ops| && Valid() && mapArray == old(mapArray) && Shape() == old(Shape())
        invariant GoesThrough(Shape(), maxBuffers, bufferInc, ops[i..]) <==> GoesThrough(Shape(), old(maxBuffers), bufferInc, ops)
        invariant LimitAfter(maxBuffers, bufferInc, ops[i..]) == LimitAfter(old(maxBuffers), bufferInc, ops)
        invariant results + Expected(file, ops[i..]) == Expected(file, ops)
      {
        assert ops[i..][0] == ops[i] && ops[i..][1..] == ops[i + 1..];
        var result;
        ok, result := ReplayOne(ops[i]);
        if !ok {
          return;
        }
        Associates(results, result, Expected(file, ops[i + 1..]));
        results := results + result;
        i := i + 1;
      }
      ok := true;
    }

    /** One operation of a history, on the class's own methods. */
    method ReplayOne(op: Op) returns (ok: bool, result: seq<seq<char>>)
      requires Valid() && |file| < UINT64_SPAN / 2
      requires op.ReadAt? ==> op.len < UINT32_SPAN && op.pos < UINT64_SPAN
      modifies this`queue, this`bufs, this`numCurrent, this`nextId, this`stamp, this`clock, this`maxBuffers, mapArray
      ensures Valid() && mapArray == old(mapArray) && Shape() == old(Shape())
      ensures maxBuffers == NextLimit(old(maxBuffers), bufferInc, op)
      ensures ok <==> (op.ReadAt? && NeedsCache(Shape(), op.pos, op.len) ==> old(maxBuffers) >= 1)
      ensures ok ==> result == if op.ReadAt? then [Slice(file, op.pos, op.len)] else []
    {
      ok, result := true, [];
      match op {
        case Inc => IncMaxBuffers();
        case Dec => DecMaxBuffers();
        case ReadAt(pos, len) =>
          var buf := new char[len];
          var received;
          ok, received := Read(pos, buf, len);
          result := [buf[..received]];
      }
    }

    // --------------------------------------------------------------- setting up

    /** `DeleteBlockPool`. */
    method DeleteBlockPool()
      modifies this`queue, this`bufs, this`numCurrent, this`maxBuffers, this`unitBytes
      ensures queue == [] && bufs == map[] && numCurrent == 0 && maxBuffers == 1 && unitBytes == BUFFER_UNIT_SIZE
    {
      queue, bufs, maxBuffers, numCurrent, unitBytes := [], map[], 1, 0, BUFFER_UNIT_SIZE;
    }

    /** `AllocateBufferMap`, not `ok` when it divides by zero: when the unit of
        `unitSizeInK` kilobytes is 0 as a 32-bit number and needed, or when the number of
        units is a multiple of 2^17, so that the block size is 0 as a 32-bit number.
        Deleting the old pool puts the unit size back to 32 kilobytes, so that
        `unitSizeInK` has an effect on the number of units only. */
    method AllocateBufferMap(unitSizeInK: nat, numBuffUnits: nat, incCount: nat, maxBlocks: nat, bitRate: nat) returns (ok: bool)
      requires Valid() && incCount < UINT32_SPAN
      modifies this`mapArray, this`bufSize, this`numUnits, this`queue, this`bufs, this`numCurrent
      modifies this`maxBuffers, this`unitBytes, this`bufferInc
      ensures Valid() && (ok ==> mapArray != null)
      ensures ok <==> old(SetUpFor(numBuffUnits, incCount)) || CanAllocate(unitSizeInK, numBuffUnits, maxBlocks, bitRate)
      ensures old(SetUpFor(numBuffUnits, incCount)) ==> mapArray == old(mapArray) && bufSize == old(bufSize)
      ensures !old(SetUpFor(numBuffUnits, incCount)) && !NoUnit(unitSizeInK, numBuffUnits) ==>
        numUnits == UnitsFor(unitSizeInK, numBuffUnits, maxBlocks, bitRate) && bufSize == numUnits * BUFFER_UNIT_SIZE % UINT32_SPAN
      ensures !old(SetUpFor(numBuffUnits, incCount)) && ok ==>
        fresh(mapArray) && bufs == map[] && maxBuffers == if incCount > 0 then incCount else 1
      ensures incCount > 0 && !old(SetUpFor(numBuffUnits, incCount)) && ok ==> bufferInc == incCount
    {
      if SetUpFor(numBuffUnits, incCount) {
        return true;
      }
      unitBytes := UnitBytes(unitSizeInK);
      if numBuffUnits == 0 && unitBytes == 0 {
        return false;
      }
      numUnits := UnitsFor(unitSizeInK, numBuffUnits, maxBlocks, bitRate);
      mapArray := null;
      DeleteBlockPool();
      bufSize := unitBytes * numUnits % UINT32_SPAN;
      EmptyBlockIff(numUnits);
      if incCount > 0 {
        maxBuffers, bufferInc := incCount, incCount;
      }
      if bufSize == 0 {
        return false;
      }
      Blocks(0, |file|, bufSize);
      var mapArraySize: nat := |file| / bufSize + 1;
      mapArray := new Option<Id>[mapArraySize](_ => None);
      return true;
    }

    /** The map exists and was made with these parameters. */
    predicate SetUpFor(numBuffUnits: nat, incCount: nat)
      reads this
    {
      mapArray != null && numUnits == numBuffUnits && incCount == maxBuffers
    }

    /** `EnableFileCache`. */
    method EnableFileCache(enabled: bool)
      requires Valid()
      modifies this`cacheEnabled
      ensures Valid() && cacheEnabled == enabled
    {
      cacheEnabled := enabled;
    }
  }

  /** How much of a block there is. */
  lemma BlockSize(file: seq<char>, start: nat, size: nat)
    requires start <= |file|
    ensures |Slice(file, start, size)| == Min(size, |file| - start)
  {
  }

  /** What is read where the read before ended. */
  lemma SlicesJoin(file: seq<char>, pos: nat, done: nat, next: nat, n: nat)
    requires n > 0 ==> pos + done == next
    ensures Slice(file, pos, done) + Slice(file, next, n) == Slice(file, pos, done + n)
  {
    SliceSplits(file, pos, done, n);
    NoSlice(file, next);
  }

  lemma NoSlice(file: seq<char>, pos: nat)
    ensures Slice(file, pos, 0) == []
  {
  }

  lemma InBlock(file: seq<char>, start: nat, size: nat, block: seq<char>, at: nat, n: nat)
    requires start <= |file| && block == Slice(file, start, size) && at + n <= |block|
    ensures block[at..at + n] == Slice(file, start + at, n)
  {
    var part := Slice(file, start + at, n);
    forall i | 0 <= i < n ensures block[at..at + n][i] == part[i] {
      assert block[at + i] == file[start + (at + i)];
    }
    assert |block[at..at + n]| == n == |part|;
  }

  lemma FillKeepsMap(slots: seq<Option<Id>>, bufs: map<Id, Block>, id: Id, b: Block)
    requires Bijection(slots, bufs) && id in bufs && b.arrayIndex == bufs[id].arrayIndex
    ensures Bijection(slots, bufs[id := b])
  {
  }

  /** The block that a position is in. */
  lemma Position(pos: nat, size: nat)
    requires size >= 1
    ensures pos / size * size <= pos < pos / size * size + size
  {
  }

  /** A block that is not the last one is full; the last one ends with the file. */
  lemma NextBlock(fileLen: nat, size: nat, k: nat, start: nat)
    requires size >= 1 && k <= fileLen / size && start == k * size
    ensures (k + 1) * size == start + size
    ensures if k < fileLen / size then start + size <= fileLen else fileLen < start + size
  {
    Position(fileLen, size);
    if k < fileLen / size {
      Times(k + 1, fileLen / size, size);
    }
  }

  lemma Blocks(a: nat, b: nat, size: nat)
    requires size >= 1 && a <= b
    ensures 0 <= a / size <= b / size
  {
    Position(a, size);
    Position(b, size);
    FewerTimes(a / size, b / size + 1, size);
  }

  lemma FewerTimes(a: nat, b: nat, size: nat)
    requires a * size < b * size
    ensures a < b
  {
    if a >= b {
      Times(b, a, size);
    }
  }

  lemma Times(a: nat, b: nat, size: nat)
    requires a <= b
    ensures a * size <= b * size
  {
  }

  /** When the loop ends for want of blocks that were asked for, nothing is left. */
  lemma EndOfRead(pos: nat, len: nat, size: nat, k: nat, endIndex: nat, received: nat)
    requires size >= 1 && endIndex == (pos + len) / size && received < len
    ensures k > endIndex ==> pos + received < k * size
  {
    if k > endIndex {
      Position(pos + len, size);
      Times(endIndex + 1, k, size);
    }
  }

  lemma HeadMoves(queue: seq<Id>)
    requires queue != [] && Distinct(queue)
    ensures Without(queue[1..], queue[0]) == queue[1..]
  {
    var at := WithoutAt(queue[1..], queue[0]);
    assert forall i :: 0 <= i < |queue| - 1 ==> queue[1..][i] == queue[i + 1];
  }

  lemma LastMoves(queue: seq<Id>)
    requires queue != [] && Distinct(queue)
    ensures Without(queue, queue[|queue| - 1]) + [queue[|queue| - 1]] == queue
  {
    var n := |queue| - 1;
    var at := WithoutAt(queue, queue[n]);
    assert at == n && RemoveAt(queue, n) == queue[..n] && queue == queue[..n] + [queue[n]];
  }
}
