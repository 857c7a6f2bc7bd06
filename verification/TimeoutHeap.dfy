/** The timeout heap of state-threads/sched.c: a binary tree of thread records
    linked by `left` and `right`, walked by the bits of a heap index.  There are
    no parent pointers; the C code holds a pointer to the link it came through,
    which is a `Link` here. */
module TimeoutHeap {
  import opened HeapLayout

  /** The fields of `_st_thread_t` that the timeout heap uses. */
  class Thread {
    const id: int                        // stands for the address of the record
    var due: int
    var left: Thread?
    var right: Thread?
    var heapIndex: int
    var onSleepQ: bool

    constructor (id: int)
      ensures this.id == id && !onSleepQ
    {
      this.id := id;
      due, left, right, heapIndex, onSleepQ := 0, null, null, 0, false;
    }
  }

  /** A `_st_thread_t **`: the root variable, or a child field of a thread. */
  datatype Link = Root | LeftOf(owner: Thread) | RightOf(owner: Thread)

  /** The layout that a sequence of threads stands for. */
  ghost function Entries(s: seq<Thread>): (r: seq<Entry<Thread>>)
    reads s
    ensures |r| == |s|
    ensures forall i :: 0 <= i < |s| ==> r[i] == Entry(s[i], s[i].due)
  {
    seq(|s|, i requires 0 <= i < |s| reads s => Entry(s[i], s[i].due))
  }

  /** The thread at position `i`, if there is one. */
  ghost function Slot(s: seq<Thread>, i: int): Thread? {
    if 1 <= i <= |s| then s[i - 1] else null
  }

  /** `p` is the link through which the walk reaches position `i`. */
  ghost predicate IsLink(p: Link, s: seq<Thread>, i: int) {
    1 <= i <= |s| &&
    p == if i == 1 then Root else if i % 2 == 0 then LeftOf(s[i / 2 - 1]) else RightOf(s[i / 2 - 1])
  }

  class SleepQueue {
    var sleepQ: Thread?
    var size: nat
    var lastClock: int
    ghost var slots: seq<Thread>

    /** The thread at position `i` knows its position and links to its children,
        except to a child at the position `hole`. */
    ghost predicate NodeLinked(s: seq<Thread>, i: int, hole: int)
      requires 1 <= i <= |s|
      reads s
    {
      && s[i - 1].heapIndex == i
      && (2 * i != hole ==> s[i - 1].left == Slot(s, 2 * i))
      && (2 * i + 1 != hole ==> s[i - 1].right == Slot(s, 2 * i + 1))
    }

    /** The tree is the layout `s`, except at the position `hole`. */
    ghost predicate LinkedAround(s: seq<Thread>, hole: int)
      reads this, s
    {
      && (hole != 1 ==> sleepQ == Slot(s, 1))
      && forall i :: 1 <= i <= |s| && i != hole ==> NodeLinked(s, i, hole)
    }

    ghost predicate Valid()
      reads this, slots
    {
      && size == |slots|
      && LinkedAround(slots, 0)
      && HeapOrdered(Entries(slots))
      && (forall t :: t in slots ==> t.onSleepQ)
    }

    /** An empty heap. */
    constructor (now: int)
      ensures Valid() && slots == [] && lastClock == now
    {
      sleepQ, size, lastClock, slots := null, 0, now, [];
    }

    /** `*p`. */
    function Load(p: Link): Thread?
      reads this, if p.Root? then {} else {p.owner}
    {
      match p
      case Root => sleepQ
      case LeftOf(t) => t.left
      case RightOf(t) => t.right
    }

    /** `*p = x`. */
    method Store(p: Link, x: Thread?)
      modifies (if p.Root? then {this} else {})`sleepQ
      modifies (if p.LeftOf? then {p.owner} else {})`left
      modifies (if p.RightOf? then {p.owner} else {})`right
      ensures Load(p) == x
    {
      match p
      case Root => sleepQ := x;
      case LeftOf(t) => t.left := x;
      case RightOf(t) => t.right := x;
    }

    /** Following the link to position `i` finds the thread at position `i`. */
    lemma LinkLoads(p: Link, s: seq<Thread>, i: int, hole: int)
      requires LinkedAround(s, hole) && IsLink(p, s, i)
      requires i != hole && (i >= 2 ==> i / 2 != hole)
      ensures Load(p) == s[i - 1]
    {
      if i >= 2 {
        assert NodeLinked(s, i / 2, hole);
      }
    }

    /** `c` takes the place of the thread that `p` links to. */
    method Displace(p: Link, c: Thread, index: nat, ghost s: seq<Thread>, ghost hole: int) returns (t: Thread)
      requires LinkedAround(s, hole) && IsLink(p, s, index) && index < hole
      requires forall i :: 0 <= i < |s| && i + 1 != hole ==> s[i] != c
      modifies this`sleepQ, c`left, c`right, c`heapIndex, (if p.Root? then {} else {p.owner})`left, (if p.Root? then {} else {p.owner})`right
      ensures t == s[index - 1]
      ensures LinkedAround(s[index - 1 := c], hole)
    {
      LinkLoads(p, s, index, hole);
      t := Load(p);
      assert NodeLinked(s, index, hole);
      assert index >= 2 ==> NodeLinked(s, index / 2, hole);
      c.left := t.left;
      c.right := t.right;
      Store(p, c);
      c.heapIndex := index;
      ghost var r := s[index - 1 := c];
      forall i | 1 <= i <= |r| && i != hole ensures NodeLinked(r, i, hole) {
        assert old(NodeLinked(s, i, hole));
        if i != index {
          assert r[i - 1] == s[i - 1] && s[i - 1] != c;
          assert index >= 2 && i != index / 2 ==> s[i - 1] != s[index / 2 - 1];
        }
      }
    }

    /** One step of a walk towards position `target`: the next bit of the position
        says which child link of the current thread to follow. */
    method Descend(p: Link, index: nat, bit: nat, target: nat, ghost s: seq<Thread>, ghost hole: int)
        returns (p': Link, index': nat)
      requires LinkedAround(s, hole) && IsLink(p, s, index) && index != hole
      requires index >= 2 ==> index / 2 != hole
      requires bit + 1 < BitLength(target) && index == Shr(target, bit + 1) && target <= |s|
      ensures index' == Shr(target, bit) && IsLink(p', s, index')
      ensures index' / 2 == index
    {
      LinkLoads(p, s, index, hole);
      ShrIsAncestor(target, bit);
      if Shr(target, bit) % 2 == 1 {
        p', index' := RightOf(Load(p)), 2 * index + 1;
      } else {
        p', index' := LeftOf(Load(p)), 2 * index;
      }
    }

    /** `c` becomes the childless thread at the hole that `p` links to. */
    method Place(p: Link, c: Thread, hole: nat, ghost s: seq<Thread>)
      requires LinkedAround(s, hole) && IsLink(p, s, hole)
      requires forall i :: 0 <= i < |s| && i + 1 != hole ==> s[i] != c
      modifies this`sleepQ, c`left, c`right, c`heapIndex, (if p.Root? then {} else {p.owner})`left, (if p.Root? then {} else {p.owner})`right
      ensures LinkedAround(s[hole - 1 := c], hole)
      ensures Load(p) == c && c.heapIndex == hole && c.left == c.right == null
    {
      assert hole >= 2 ==> NodeLinked(s, hole / 2, hole);
      c.heapIndex := hole;
      Store(p, c);
      c.left, c.right := null, null;
      ghost var r := s[hole - 1 := c];
      forall i | 1 <= i <= |r| && i != hole ensures NodeLinked(r, i, hole) {
        assert old(NodeLinked(s, i, hole));
        assert r[i - 1] == s[i - 1] && s[i - 1] != c;
        assert hole >= 2 && i != hole / 2 ==> s[i - 1] != s[hole / 2 - 1];
      }
    }

    /** Threads at different positions are different. */
    lemma DistinctSlots(s: seq<Thread>, hole: int)
      requires LinkedAround(s, hole)
      ensures forall i, j :: 0 <= i < j < |s| && i + 1 != hole && j + 1 != hole ==> s[i] != s[j]
    {
      forall i, j | 0 <= i < j < |s| && i + 1 != hole && j + 1 != hole ensures s[i] != s[j] {
        assert NodeLinked(s, i + 1, hole) && NodeLinked(s, j + 1, hole);
      }
    }

    /** The state of the walk of `heap_insert`: it has reached the ancestor
        `Shr(target, bit)` through `p`, carries `c`, and has left the tree as `r`. */
    ghost predicate Walking(p: Link, c: Thread, bit: nat, target: nat,
                            r: seq<Thread>, e: seq<Entry<Thread>>, nodes: set<Thread>)
      reads this, r
    {
      bit < BitLength(target) && IsLink(p, r, Shr(target, bit)) && Carrying(c, target, r, e, nodes)
    }

    /** The tree is `r`, but for the hole at `target`, with the layout `e`; `c` is not in it. */
    ghost predicate Carrying(c: Thread, target: nat, r: seq<Thread>, e: seq<Entry<Thread>>, nodes: set<Thread>)
      reads this, r
    {
      && target <= |r| == |e|
      && LinkedAround(r, target)
      && c in nodes
      && (forall i :: 0 <= i < |r| && i + 1 != target ==> r[i] != c && r[i] in nodes)
      && (forall i :: 0 <= i < |r| ==> e[i] == Entry(r[i], r[i].due))
    }

    /** The carried thread takes the place of the one at `index`, which is carried on. */
    method Swap(p: Link, c: Thread, index: nat, ghost target: nat, ghost r: seq<Thread>, ghost e: seq<Entry<Thread>>, ghost nodes: set<Thread>)
        returns (c': Thread, ghost r': seq<Thread>, ghost e': seq<Entry<Thread>>)
      requires Carrying(c, target, r, e, nodes) && IsLink(p, r, index) && index < target
      modifies this`sleepQ, nodes`left, nodes`right, nodes`heapIndex
      ensures Carrying(c', target, r', e', nodes) && IsLink(p, r', index)
      ensures r' == r[index - 1 := c] && e' == Put(e, index, Entry(c, c.due)) && c' == r[index - 1]
    {
      assert !p.Root? ==> index / 2 != target && p.owner == r[index / 2 - 1];
      DistinctSlots(r, target);
      c' := Displace(p, c, index, r, target);
      r', e' := r[index - 1 := c], Put(e, index, Entry(c, c.due));
    }

    /** One turn of the loop of `heap_insert`. */
    method PushStep(p: Link, c: Thread, index: nat, bit: nat, target: nat,
                    ghost r: seq<Thread>, ghost e: seq<Entry<Thread>>, ghost nodes: set<Thread>)
        returns (p': Link, c': Thread, index': nat, ghost r': seq<Thread>, ghost e': seq<Entry<Thread>>)
      requires bit + 1 < BitLength(target) && index == Shr(target, bit + 1)
      requires Walking(p, c, bit + 1, target, r, e, nodes)
      modifies this`sleepQ, nodes`left, nodes`right, nodes`heapIndex
      ensures index' == Shr(target, bit) && |r'| == |r|
      ensures Walking(p', c', bit, target, r', e', nodes)
      ensures Push(e', Entry(c', c'.due), bit, target) == Push(e, Entry(c, c.due), bit + 1, target)
    {
      c', r', e' := c, r, e;
      ShrIsAncestor(target, bit + 1);
      LinkLoads(p, r, index, target);
      if c.due < Load(p).due {
        c', r', e' := Swap(p, c, index, target, r, e, nodes);
      }
      p', index' := Descend(p, index, bit, target, r', target);
    }

    /** The loop of `heap_insert`, down to the position that is to be filled. */
    method PushDown(thread: Thread, target: nat, ghost s: seq<Thread>, ghost e0: seq<Entry<Thread>>, ghost nodes: set<Thread>)
        returns (p: Link, c: Thread, ghost r: seq<Thread>, ghost e: seq<Entry<Thread>>)
      requires 1 <= target
      requires Walking(Root, thread, BitLength(target) - 1, target, s, e0, nodes)
      modifies this`sleepQ, nodes`left, nodes`right, nodes`heapIndex
      ensures |r| == |s| && Walking(p, c, 0, target, r, e, nodes)
      ensures Put(e, target, Entry(c, c.due)) == Push(e0, Entry(thread, thread.due), BitLength(target) - 1, target)
    {
      var bits := CountBits(target);
      var index := 1;
      p, c, r, e := Root, thread, s, e0;
      ShrIsAncestor(target, bits - 1);
      var bit: int := bits - 2;
      ghost var goal := Push(e, Entry(thread, thread.due), bits - 1, target);
      while bit >= 0
        invariant -1 <= bit <= bits - 2 && |r| == |s|
        invariant index == Shr(target, bit + 1)
        invariant Walking(p, c, bit + 1, target, r, e, nodes)
        invariant Push(e, Entry(c, c.due), bit + 1, target) == goal
      {
        p, c, index, r, e := PushStep(p, c, index, bit, target, r, e, nodes);
        bit := bit - 1;
      }
    }

    /** `heap_insert`: links `thread` into the position given by its heap index,
        walking down from the root and leaving it at the first ancestor that is
        due strictly later.  `s` is the layout in which that position is to be
        overwritten, `r` the layout afterwards; only the threads of `nodes` change. */
    method HeapInsert(thread: Thread, ghost s: seq<Thread>, ghost nodes: set<Thread>)
        returns (p: Link, ghost r: seq<Thread>)
      requires 1 <= thread.heapIndex <= |s|
      requires LinkedAround(s, thread.heapIndex)
      requires forall i :: 0 <= i < |s| && i + 1 != thread.heapIndex ==> s[i] != thread && s[i] in nodes
      requires thread in nodes
      modifies this`sleepQ, nodes`left, nodes`right, nodes`heapIndex
      ensures |r| == |s|
      ensures Entries(r) == Push(old(Entries(s)), Entry(thread, thread.due),
                                 BitLength(old(thread.heapIndex)) - 1, old(thread.heapIndex))
      ensures LinkedAround(r, old(thread.heapIndex))
      ensures IsLink(p, r, old(thread.heapIndex)) && Load(p) == r[old(thread.heapIndex) - 1]
      ensures r[old(thread.heapIndex) - 1].heapIndex == old(thread.heapIndex)
      ensures r[old(thread.heapIndex) - 1].left == r[old(thread.heapIndex) - 1].right == null
      ensures forall i :: 0 <= i < |r| ==> r[i] in nodes
    {
      var target := thread.heapIndex;
      var c;
      ghost var e;
      ShrIsAncestor(target, BitLength(target) - 1);
      p, c, r, e := PushDown(thread, target, s, Entries(s), nodes);
      Place(p, c, target, r);
      r := r[target - 1 := c];
      assert Entries(r) == Put(e, target, Entry(c, c.due));
    }

    /** The link to the last thread, found by the bits of the size. */
    method LastLink() returns (p: Link)
      requires size == |slots| >= 1 && LinkedAround(slots, 0)
      ensures IsLink(p, slots, size)
    {
      var bits := CountBits(size);
      var index := 1;
      p := Root;
      ShrIsAncestor(size, bits - 1);
      var bit: int := bits - 2;
      while bit >= 0
        invariant -1 <= bit <= bits - 2
        invariant index == Shr(size, bit + 1) && IsLink(p, slots, index)
      {
        p, index := Descend(p, index, bit, size, slots, 0);
        bit := bit - 1;
      }
    }

    /** The first part of `heap_delete`: the last thread is unlinked. */
    method UnlinkLast() returns (t: Thread)
      requires size == |slots| >= 1 && LinkedAround(slots, 0)
      modifies this`sleepQ, this`size, this`slots, slots`left, slots`right
      ensures slots == old(slots)[..old(size) - 1] && t == old(slots)[old(size) - 1]
      ensures size == |slots| && LinkedAround(slots, 0)
      ensures Entries(slots) == old(Entries(slots))[..old(size) - 1]
    {
      var p := LastLink();
      LinkLoads(p, slots, size, 0);
      t := Load(p);
      ghost var r := slots[..size - 1];
      DistinctSlots(slots, 0);
      Store(p, null);
      forall i | 1 <= i <= |r| ensures NodeLinked(r, i, 0) {
        assert old(NodeLinked(slots, i, 0));
      }
      size, slots := size - 1, r;
    }

    /** `y`, a child of `t`, takes over the children and the index of `t`. */
    method Rotate(t: Thread, y: Thread)
      requires t != y && (y == t.left || y == t.right)
      modifies t`left, t`right, t`heapIndex, y`left, y`right, y`heapIndex
      ensures t.left == old(y.left) && t.right == old(y.right) && t.heapIndex == old(y.heapIndex)
      ensures y.left == (if old(y == t.left) then t else old(t.left))
      ensures y.right == (if old(y == t.left) then old(t.right) else t)
      ensures y.heapIndex == old(t.heapIndex)
    {
      var tl, tr := y.left, y.right;
      if y == t.left {
        y.left, y.right := t, t.right;
      } else {
        y.left, y.right := t.left, t;
      }
      t.left, t.right := tl, tr;
      t.heapIndex, y.heapIndex := y.heapIndex, t.heapIndex;
    }

    /** One exchange of the repair loop of `heap_delete`: the thread `t` at
        position `i` and its child `y` at position `c` swap places. */
    method Exchange(p: Link, t: Thread, y: Thread, ghost s: seq<Thread>, ghost i: nat, ghost c: nat)
      requires LinkedAround(s, 0) && IsLink(p, s, i)
      requires c <= |s| && c / 2 == i
      requires t == s[i - 1] && y == s[c - 1]
      modifies this`sleepQ, s`left, s`right, s`heapIndex
      ensures LinkedAround(s[i - 1 := y][c - 1 := t], 0)
    {
      assert NodeLinked(s, i, 0) && NodeLinked(s, c, 0);
      assert i >= 2 ==> NodeLinked(s, i / 2, 0);
      DistinctSlots(s, 0);
      Store(p, y);
      Rotate(t, y);
      ghost var r := s[i - 1 := y][c - 1 := t];
      forall j | 1 <= j <= |r| ensures NodeLinked(r, j, 0) {
        assert old(NodeLinked(s, j, 0));
        if j != i && j != c {
          assert s[j - 1] != t && s[j - 1] != y;
          assert i >= 2 && j != i / 2 ==> s[j - 1] != s[i / 2 - 1];
        }
      }
    }

    /** The child of `t` that the repair loop compares with. */
    method Younger(t: Thread, ghost s: seq<Thread>, ghost e: seq<Entry<Thread>>, ghost i: nat) returns (y: Thread, isLeft: bool)
      requires 1 <= i <= |s| && LinkedAround(s, 0) && t == s[i - 1] && t.left != null
      requires |e| == |s| && forall j :: 0 <= j < |s| ==> e[j] == Entry(s[j], s[j].due)
      ensures 2 * i <= |s|
      ensures y == s[YoungerChild(e, i) - 1] && (isLeft <==> YoungerChild(e, i) == 2 * i)
    {
      assert NodeLinked(s, i, 0);
      if t.right == null || t.left.due < t.right.due {
        y, isLeft := t.left, true;
      } else {
        y, isLeft := t.right, false;
      }
    }

    /** The state of the repair loop: `t` is the thread at position `i`. */
    ghost predicate Repairing(p: Link, t: Thread, i: nat, r: seq<Thread>, e: seq<Entry<Thread>>, nodes: set<Thread>)
      reads this, r
    {
      && LinkedAround(r, 0) && IsLink(p, r, i) && t == r[i - 1]
      && |e| == |r|
      && (forall j :: 0 <= j < |r| ==> e[j] == Entry(r[j], r[j].due) && r[j] in nodes)
    }

    /** One turn of the repair loop; `more` is false when it breaks. */
    method RepairStep(p: Link, t: Thread, ghost i: nat, ghost r: seq<Thread>, ghost e: seq<Entry<Thread>>, ghost nodes: set<Thread>)
        returns (more: bool, p': Link, ghost i': nat, ghost r': seq<Thread>, ghost e': seq<Entry<Thread>>)
      requires Repairing(p, t, i, r, e, nodes)
      modifies this`sleepQ, nodes`left, nodes`right, nodes`heapIndex
      ensures Repairing(p', t, i', r', e', nodes) && |r'| == |r|
      ensures SiftDown(e', i') == SiftDown(e, i)
      ensures if more then i' > i else SiftDown(e', i') == e'
    {
      p', i', r', e' := p, i, r, e;
      assert NodeLinked(r, i, 0);
      if t.left == null {
        return false, p', i', r', e';
      }
      var y, isLeft := Younger(t, r, e, i);
      if t.due <= y.due {
        return false, p', i', r', e';
      }
      i' := YoungerChild(e, i);
      Exchange(p, t, y, r, i, i');
      more, p' := true, if isLeft then LeftOf(y) else RightOf(y);
      r', e' := r[i - 1 := y][i' - 1 := t], Put(Put(e, i, At(e, i')), i', At(e, i));
    }

    /** The repair loop of `heap_delete`, from the thread `t` that `p0` links to. */
    method Repair(p0: Link, t: Thread, ghost k: nat, ghost s: seq<Thread>, ghost e0: seq<Entry<Thread>>) returns (ghost r: seq<Thread>)
      requires LinkedAround(s, 0) && IsLink(p0, s, k) && t == s[k - 1] && e0 == Entries(s)
      modifies this`sleepQ, s`left, s`right, s`heapIndex
      ensures |r| == |s| && LinkedAround(r, 0)
      ensures Entries(r) == SiftDown(e0, k)
      ensures forall j :: 0 <= j < |r| ==> r[j] in s
    {
      var p, more := p0, true;
      ghost var i, e := k, e0;
      ghost var nodes := set x | x in s;
      r := s;
      while more
        invariant Repairing(p, t, i, r, e, nodes) && |r| == |s|
        invariant SiftDown(e, i) == SiftDown(e0, k)
        invariant !more ==> SiftDown(e, i) == e
        decreases more, |s| - i
      {
        more, p, i, r, e := RepairStep(p, t, i, r, e, nodes);
      }
      assert Entries(r) == e;
    }

    /** Pushing into position `k` leaves the threads below it where they are. */
    lemma ChildrenKept(e0: seq<Entry<Thread>>, e: seq<Entry<Thread>>, c: Entry<Thread>, k: nat, s: seq<Thread>, r: seq<Thread>)
      requires 1 <= k <= |s| == |r| == |e0| && e == Push(e0, c, BitLength(k) - 1, k)
      requires forall i :: 0 <= i < |s| ==> e0[i].who == s[i]
      requires forall i :: 0 <= i < |s| ==> e[i].who == r[i]
      ensures Slot(r, 2 * k) == Slot(s, 2 * k) && Slot(r, 2 * k + 1) == Slot(s, 2 * k + 1)
    {
      if 2 * k <= |s| {
        PushKeepsBeyond(e0, c, BitLength(k) - 1, k, 2 * k);
      }
      if 2 * k + 1 <= |s| {
        PushKeepsBeyond(e0, c, BitLength(k) - 1, k, 2 * k + 1);
      }
    }

    /** The thread that landed at position `k` takes over the children of `thread`. */
    method Reattach(p: Link, thread: Thread, ghost k: nat, ghost r: seq<Thread>) returns (t: Thread)
      requires LinkedAround(r, k) && IsLink(p, r, k) && Load(p) == r[k - 1] && r[k - 1].heapIndex == k
      requires thread.left == Slot(r, 2 * k) && thread.right == Slot(r, 2 * k + 1)
      modifies {At(r, k)}`left, {At(r, k)}`right
      ensures LinkedAround(r, 0) && t == r[k - 1]
      ensures Entries(r) == old(Entries(r))
    {
      t := Load(p);
      t.left := thread.left;
      t.right := thread.right;
      forall i | 1 <= i <= |r| ensures NodeLinked(r, i, 0) {
        if i != k {
          assert old(NodeLinked(r, i, k));
        }
      }
    }

    /** Any position of a linked tree may be treated as a hole. */
    lemma OpenHole(s: seq<Thread>, k: nat)
      requires LinkedAround(s, 0) && 1 <= k <= |s|
      ensures LinkedAround(s, k)
      ensures s[k - 1].left == Slot(s, 2 * k) && s[k - 1].right == Slot(s, 2 * k + 1)
      ensures forall i :: 0 <= i < |s| && i + 1 != k ==> s[i] != s[k - 1]
    {
      forall i | 1 <= i <= |s| ensures NodeLinked(s, i, k) {
        assert NodeLinked(s, i, 0);
      }
      DistinctSlots(s, 0);
      assert NodeLinked(s, k, 0);
    }

    /** The threads of `s` but for `thread`, and `t`. */
    lemma OtherNodes(s: seq<Thread>, thread: Thread, t: Thread) returns (nodes: set<Thread>)
      requires t != thread
      ensures t in nodes && forall x :: x in nodes <==> (x in s && x != thread) || x == t
    {
      nodes := (set x | x in s) - {thread} + {t};
    }

    /** The unlinked last thread `t` is pushed into the position of `thread`, and
        whoever lands there takes over the children of `thread`. */
    method InsertLast(t: Thread, thread: Thread) returns (p: Link, t': Thread, ghost r: seq<Thread>)
      requires size == |slots| && LinkedAround(slots, 0) && t !in slots
      requires 1 <= thread.heapIndex <= size && At(slots, thread.heapIndex) == thread
      modifies this`sleepQ, slots`left, slots`right, slots`heapIndex, t`left, t`right, t`heapIndex
      ensures |r| == |slots| && LinkedAround(r, 0)
      ensures IsLink(p, r, old(thread.heapIndex)) && t' == At(r, old(thread.heapIndex))
      ensures forall i :: 0 <= i < |r| ==> r[i] != thread && (r[i] in slots || r[i] == t)
      ensures Entries(r) == Push(old(Entries(slots)), Entry(t, t.due), BitLength(old(thread.heapIndex)) - 1,
                                 old(thread.heapIndex))
    {
      ghost var k, e0 := thread.heapIndex, Entries(slots);
      OpenHole(slots, k);
      ghost var nodes := OtherNodes(slots, thread, t);
      t.heapIndex := thread.heapIndex;
      p, r := HeapInsert(t, slots, nodes);
      ChildrenKept(e0, Entries(r), Entry(t, t.due), k, slots, r);
      t' := Reattach(p, thread, k, r);
    }

    /** The second part of `heap_delete`: the last thread fills the gap and the
        order below it is repaired. */
    method FillGap(t: Thread, thread: Thread, ghost e0: seq<Entry<Thread>>) returns (ghost r: seq<Thread>)
      requires size == |slots| && LinkedAround(slots, 0) && t !in slots
      requires 1 <= thread.heapIndex <= size && At(slots, thread.heapIndex) == thread
      requires e0 == Entries(slots) + [Entry(t, t.due)]
      modifies this`sleepQ, slots`left, slots`right, slots`heapIndex, t`left, t`right, t`heapIndex
      ensures |r| == |slots| && LinkedAround(r, 0) && thread !in r
      ensures Entries(r) == Delete(e0, old(thread.heapIndex))
    {
      ghost var k := thread.heapIndex;
      assert e0[..|e0| - 1] == Entries(slots);
      var p, t';
      p, t', r := InsertLast(t, thread);
      r := Repair(p, t', k, r, Entries(r));
    }

    /** A linked thread knows its own position. */
    lemma KnowsPosition(thread: Thread)
      requires LinkedAround(slots, 0) && thread in slots
      ensures 1 <= thread.heapIndex <= |slots| && At(slots, thread.heapIndex) == thread
    {
      var j :| 0 <= j < |slots| && slots[j] == thread;
      assert NodeLinked(slots, j + 1, 0);
    }

    /** `heap_delete`. */
    method HeapDelete(thread: Thread)
      requires size == |slots| && LinkedAround(slots, 0) && thread in slots
      modifies this`sleepQ, this`size, this`slots, slots`left, slots`right, slots`heapIndex
      ensures 1 <= old(thread.heapIndex) <= old(size) && At(old(slots), old(thread.heapIndex)) == thread
      ensures size == |slots| && LinkedAround(slots, 0) && thread !in slots
      ensures Entries(slots) == Delete(old(Entries(slots)), old(thread.heapIndex))
      ensures thread.left == thread.right == null
    {
      KnowsPosition(thread);
      DistinctSlots(slots, 0);
      ghost var k, e0 := thread.heapIndex, Entries(slots);
      var t := UnlinkLast();
      if t != thread {
        Refill(t, thread, e0);
      }
      ClearLinks(thread);
    }

    /** The last thread takes a place in the tree again. */
    method Refill(t: Thread, thread: Thread, ghost e0: seq<Entry<Thread>>)
      requires size == |slots| && LinkedAround(slots, 0) && t !in slots
      requires 1 <= thread.heapIndex <= size && At(slots, thread.heapIndex) == thread
      requires |e0| == |slots| + 1 && e0[..|slots|] == Entries(slots) && e0[|slots|] == Entry(t, t.due)
      modifies this`sleepQ, this`slots, slots`left, slots`right, slots`heapIndex, t`left, t`right, t`heapIndex
      ensures size == |slots| && LinkedAround(slots, 0) && thread !in slots
      ensures Entries(slots) == Delete(e0, old(thread.heapIndex))
    {
      assert e0 == Entries(slots) + [Entry(t, t.due)];
      var r := FillGap(t, thread, e0);
      slots := r;
    }

    /** A deleted thread forgets its children. */
    method ClearLinks(thread: Thread)
      requires LinkedAround(slots, 0) && thread !in slots
      modifies thread`left, thread`right
      ensures LinkedAround(slots, 0) && Entries(slots) == old(Entries(slots))
      ensures thread.left == thread.right == null
    {
      thread.left, thread.right := null, null;
      forall i | 1 <= i <= |slots| ensures NodeLinked(slots, i, 0) {
        assert old(NodeLinked(slots, i, 0));
      }
    }

    /** Filling the last position of a tree with a childless thread completes it. */
    lemma CloseHole(p: Link, s: seq<Thread>, n: int)
      requires n == |s| >= 1 && LinkedAround(s, n)
      requires s[n - 1].heapIndex == n && s[n - 1].left == s[n - 1].right == null
      requires IsLink(p, s, n) && Load(p) == s[n - 1]
      ensures LinkedAround(s, 0)
    {
      forall i | 1 <= i <= |s| ensures NodeLinked(s, i, 0) {
        assert i != n ==> NodeLinked(s, i, n);
      }
    }

    /** The next position is a hole. */
    lemma NewHole(thread: Thread) returns (nodes: set<Thread>)
      requires LinkedAround(slots, 0) && thread !in slots
      ensures LinkedAround(slots + [thread], |slots| + 1)
      ensures Entries(slots + [thread]) == Entries(slots) + [Entry(thread, thread.due)]
      ensures forall x :: x in nodes <==> x in slots || x == thread
      ensures forall i :: 0 <= i < |slots| ==> (slots + [thread])[i] in nodes && (slots + [thread])[i] != thread
    {
      var s := slots + [thread];
      nodes := set x | x in s;
      forall i | 1 <= i <= |s| && i != |s| ensures NodeLinked(s, i, |s|) {
        assert NodeLinked(slots, i, 0);
      }
    }

    /** The linking part of `_st_add_sleep_q`: the thread enters at the first free
        position. */
    method InsertLeaf(thread: Thread)
      requires size == |slots| + 1 && LinkedAround(slots, 0) && thread !in slots && thread.heapIndex == size
      modifies this`sleepQ, this`slots, slots`left, slots`right, slots`heapIndex, thread`left, thread`right, thread`heapIndex
      ensures size == |slots| && LinkedAround(slots, 0)
      ensures Entries(slots) == Insert(old(Entries(slots)), Entry(thread, thread.due))
    {
      ghost var e0 := Entries(slots);
      ghost var s := slots + [thread];
      ghost var nodes := NewHole(thread);
      var p, r := HeapInsert(thread, s, nodes);
      CloseHole(p, r, size);
      slots := r;
    }

    /** The layout's threads, as the pure layer counts them. */
    lemma SameWhos(s: seq<Thread>)
      ensures Whos(Entries(s)) == s
    {
    }

    /** `_st_add_sleep_q`. */
    method AddSleepQ(thread: Thread, timeout: int)
      requires Valid() && thread !in slots
      modifies this`sleepQ, this`size, this`slots, slots`left, slots`right, slots`heapIndex, thread
      ensures Valid() && thread.due == lastClock + timeout
      ensures Entries(slots) == Insert(old(Entries(slots)), Entry(thread, thread.due))
      ensures multiset(slots) == old(multiset(slots)) + multiset{thread}
    {
      ghost var e0, s0 := Entries(slots), slots;
      SameWhos(slots);
      thread.due := lastClock + timeout;
      thread.onSleepQ := true;
      size := size + 1;
      thread.heapIndex := size;
      assert LinkedAround(slots, 0) by {
        forall i | 1 <= i <= |slots| ensures NodeLinked(slots, i, 0) {
          assert old(NodeLinked(slots, i, 0));
        }
      }
      assert Entries(slots) == e0;
      InsertLeaf(thread);
      Joined(s0, thread, e0, Entries(slots));
    }

    lemma Joined(s0: seq<Thread>, thread: Thread, e0: seq<Entry<Thread>>, e: seq<Entry<Thread>>)
      requires HeapOrdered(e0) && Whos(e0) == s0
      requires e == Insert(e0, Entry(thread, thread.due)) == Entries(slots)
      ensures HeapOrdered(e) && multiset(slots) == multiset(s0) + multiset{thread}
      ensures forall t :: t in slots ==> t in s0 || t == thread
    {
      var c := Entry(thread, thread.due);
      InsertOrders(e0, c);
      InsertMembers(e0, c);
      assert multiset(e0 + [c]) == multiset(e0) + multiset{c};
      WhosOfSameMembers(e, e0 + [c]);
      WhosOfConcat(e0, [c]);
      SameWhos(slots);
      forall t | t in slots ensures t in s0 || t == thread {
        assert t in multiset(slots);
      }
    }

    /** `_st_del_sleep_q`. */
    method DelSleepQ(thread: Thread)
      requires Valid() && thread in slots
      modifies this`sleepQ, this`size, this`slots, slots`left, slots`right, slots`heapIndex, thread`onSleepQ
      ensures Valid() && !thread.onSleepQ && thread !in slots
      ensures 1 <= old(thread.heapIndex) <= old(size) && At(old(slots), old(thread.heapIndex)) == thread
      ensures Entries(slots) == Delete(old(Entries(slots)), old(thread.heapIndex))
      ensures multiset(slots) + multiset{thread} == old(multiset(slots))
    {
      ghost var k, e0, s0 := thread.heapIndex, Entries(slots), slots;
      SameWhos(slots);
      HeapDelete(thread);
      ghost var e := Entries(slots);
      Left(s0, thread, k, e0, e);
      thread.onSleepQ := false;
      assert Entries(slots) == e;
    }

    lemma Left(s0: seq<Thread>, thread: Thread, k: nat, e0: seq<Entry<Thread>>, e: seq<Entry<Thread>>)
      requires HeapOrdered(e0) && Whos(e0) == s0 && 1 <= k <= |e0| && At(s0, k) == thread
      requires e == Delete(e0, k) == Entries(slots)
      ensures HeapOrdered(e) && multiset(slots) + multiset{thread} == multiset(s0)
      ensures forall t :: t in slots ==> t in s0
    {
      DeleteOrders(e0, k);
      DeleteMembers(e0, k);
      var c := At(e0, k);
      assert multiset(e + [c]) == multiset(e) + multiset{c};
      WhosOfSameMembers(e + [c], e0);
      WhosOfConcat(e, [c]);
      SameWhos(slots);
      forall t | t in slots ensures t in s0 {
        assert t in multiset(slots);
        assert t in multiset(s0);
      }
    }

    /** `while (s) { s >>= 1; bits++; }` */
    static method CountBits(x: nat) returns (bits: int)
      ensures bits == BitLength(x)
    {
      var s := x;
      bits := 0;
      while s != 0
        invariant bits + BitLength(s) == BitLength(x)
      {
        s, bits := s / 2, bits + 1;
      }
    }
  }
}
