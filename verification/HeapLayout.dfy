/** The timeout heap as a numbered layout: the element at position `i` (counting
    from 1) has its children at `2 * i` and `2 * i + 1`, as in
    state-threads/docs/timeout_heap.txt.  The functions below say, position by
    position, what `heap_insert` and `heap_delete` do to that layout; module
    TimeoutHeap shows that the pointer code does exactly this to a linked tree. */
module HeapLayout {

  datatype Entry<+T> = Entry(who: T, due: int)

  // ---------------------------------------------------------------- positions

  /** `x >> s`. */
  function Shr(x: nat, s: nat): (r: nat)
    ensures r <= x
  {
    if s == 0 then x else Shr(x, s - 1) / 2
  }

  /** The number of bits the C loops count with `while (s) { s >>= 1; bits++; }`. */
  function BitLength(x: nat): nat {
    if x == 0 then 0 else 1 + BitLength(x / 2)
  }

  lemma {:induction false} ShrOfHalf(x: nat, s: nat)
    ensures Shr(x / 2, s) == Shr(x, s + 1)
  {
    if s > 0 {
      ShrOfHalf(x, s - 1);
    }
  }

  /** Every prefix of the bits of a position is an ancestor position; the
      shortest one is the root. */
  lemma {:induction false} ShrIsAncestor(x: nat, s: nat)
    requires s < BitLength(x)
    ensures 1 <= Shr(x, s) <= x
    ensures s == BitLength(x) - 1 ==> Shr(x, s) == 1
    ensures s > 0 ==> Shr(x, s) < x
  {
    if s > 0 {
      ShrOfHalf(x, s - 1);
      ShrIsAncestor(x / 2, s - 1);
    }
  }

  function At<T>(h: seq<T>, i: int): T
    requires 1 <= i <= |h|
  {
    h[i - 1]
  }

  function Put<T>(h: seq<T>, i: int, x: T): seq<T>
    requires 1 <= i <= |h|
  {
    h[i - 1 := x]
  }

  // --------------------------------------------------------------- heap order

  /** The edge from the parent of `i` to `i` is in order. */
  ghost predicate EdgeOrdered<T>(h: seq<Entry<T>>, i: int)
    requires 2 <= i <= |h|
  {
    At(h, i / 2).due <= At(h, i).due
  }

  ghost predicate HeapOrdered<T>(h: seq<Entry<T>>) {
    forall i :: 2 <= i <= |h| ==> EdgeOrdered(h, i)
  }

  /** All edges that do not touch position `t` are in order, and the edges below
      `t` would be in order if `t` were contracted into its parent. */
  ghost predicate OrderedAround<T>(h: seq<Entry<T>>, t: int)
    requires 1 <= t <= |h|
  {
    && (forall i :: 2 <= i <= |h| && i != t && i / 2 != t ==> EdgeOrdered(h, i))
    && (t >= 2 ==> forall i :: 2 <= i <= |h| && i / 2 == t ==> At(h, t / 2).due <= At(h, i).due)
  }

  /** As `OrderedAround`, and the edge above `t` is in order too. */
  ghost predicate OrderedBelow<T>(h: seq<Entry<T>>, t: int)
    requires 1 <= t <= |h|
  {
    OrderedAround(h, t) && (t >= 2 ==> EdgeOrdered(h, t))
  }

  // --------------------------------------------------------------- operations

  /** The downward walk of `heap_insert` from the ancestor `Shr(target, s)`,
      carrying `c`: at every proper ancestor whose entry is due strictly later,
      the carried entry stays and the old one is carried on. */
  function Push<T>(h: seq<Entry<T>>, c: Entry<T>, s: nat, target: nat): (r: seq<Entry<T>>)
    requires s < BitLength(target) && target <= |h|
    ensures |r| == |h|
    decreases s
  {
    ShrIsAncestor(target, s);
    var p := Shr(target, s);
    if s == 0 then Put(h, target, c)
    else if c.due < At(h, p).due then Push(Put(h, p, c), At(h, p), s - 1, target)
    else Push(h, c, s - 1, target)
  }

  /** `_st_add_sleep_q`: the new entry is pushed towards the first free position. */
  function Insert<T>(h: seq<Entry<T>>, c: Entry<T>): (r: seq<Entry<T>>)
    ensures |r| == |h| + 1
  {
    Push(h + [c], c, BitLength(|h| + 1) - 1, |h| + 1)
  }

  /** The child that the repair loop of `heap_delete` compares with: the left one
      if it is due strictly earlier or there is no right one, else the right one. */
  function YoungerChild<T>(h: seq<Entry<T>>, i: nat): (c: nat)
    requires 1 <= i && 2 * i <= |h|
    ensures c / 2 == i && c <= |h|
  {
    if 2 * i + 1 > |h| || At(h, 2 * i).due < At(h, 2 * i + 1).due then 2 * i else 2 * i + 1
  }

  /** The repair loop of `heap_delete`, started at position `i`. */
  function SiftDown<T>(h: seq<Entry<T>>, i: nat): (r: seq<Entry<T>>)
    requires 1 <= i <= |h|
    ensures |r| == |h|
    decreases |h| - i
  {
    if 2 * i > |h| then h
    else
      var c := YoungerChild(h, i);
      if At(h, i).due > At(h, c).due
      then SiftDown(Put(Put(h, i, At(h, c)), c, At(h, i)), c)
      else h
  }

  /** `heap_delete` of the entry at position `k`: the last entry is unlinked and,
      unless it is the one to delete, pushed into position `k` and repaired. */
  function Delete<T>(h: seq<Entry<T>>, k: nat): (r: seq<Entry<T>>)
    requires 1 <= k <= |h|
    ensures |r| == |h| - 1
  {
    var h1 := h[..|h| - 1];
    if k == |h| then h1
    else SiftDown(Push(h1, At(h, |h|), BitLength(k) - 1, k), k)
  }

  // --------------------------------------------------------------- heap order

  /** Lowering the entry at `p` (or replacing the one at the hole `t`) keeps the
      order around `t`, as long as the parent of `p` is not due later. */
  lemma PutOrders<T>(h: seq<Entry<T>>, p: nat, c: Entry<T>, t: nat)
    requires 1 <= p <= t <= |h| && OrderedAround(h, t)
    requires p >= 2 ==> At(h, p / 2).due <= c.due
    requires p == t || c.due <= At(h, p).due
    ensures OrderedAround(Put(h, p, c), t)
  {
    var h' := Put(h, p, c);
    forall i | 2 <= i <= |h'| && i != t && i / 2 != t ensures EdgeOrdered(h', i) {
      assert EdgeOrdered(h, i);
    }
    if t >= 2 {
      forall i | 2 <= i <= |h'| && i / 2 == t ensures At(h', t / 2).due <= At(h', i).due {
        assert At(h, t / 2).due <= At(h, i).due;
      }
    }
  }

  lemma {:induction false} PushOrders<T>(h: seq<Entry<T>>, c: Entry<T>, s: nat, target: nat)
    requires s < BitLength(target) && target <= |h|
    requires OrderedAround(h, target)
    requires Shr(target, s) >= 2 ==> At(h, Shr(target, s) / 2).due <= c.due
    ensures OrderedBelow(Push(h, c, s, target), target)
    decreases s
  {
    ShrIsAncestor(target, s);
    var p := Shr(target, s);
    if s == 0 {
      PutOrders(h, target, c, target);
    } else {
      assert Shr(target, s - 1) / 2 == p;
      if c.due < At(h, p).due {
        PutOrders(h, p, c, target);
        PushOrders(Put(h, p, c), At(h, p), s - 1, target);
      } else {
        PushOrders(h, c, s - 1, target);
      }
    }
  }

  lemma {:induction false} SiftDownOrders<T>(h: seq<Entry<T>>, i: nat)
    requires 1 <= i <= |h|
    requires OrderedBelow(h, i)
    ensures HeapOrdered(SiftDown(h, i))
    decreases |h| - i
  {
    if 2 * i <= |h| {
      var c := YoungerChild(h, i);
      if At(h, i).due > At(h, c).due {
        var h' := Put(Put(h, i, At(h, c)), c, At(h, i));
        forall j | 2 <= j <= |h'| && j / 2 != c ensures EdgeOrdered(h', j) {
          if j != i && j / 2 != i {
            assert EdgeOrdered(h, j);
          }
        }
        forall j | 2 <= j <= |h'| && j / 2 == c ensures At(h', c / 2).due <= At(h', j).due {
          assert EdgeOrdered(h, j);
        }
        SiftDownOrders(h', c);
      }
    }
  }

  lemma InsertOrders<T>(h: seq<Entry<T>>, c: Entry<T>)
    requires HeapOrdered(h)
    ensures HeapOrdered(Insert(h, c))
  {
    var g := h + [c];
    var n := |g|;
    forall i | 2 <= i <= |g| && i != n && i / 2 != n ensures EdgeOrdered(g, i) {
      assert EdgeOrdered(h, i);
    }
    ShrIsAncestor(n, BitLength(n) - 1);
    PushOrders(g, c, BitLength(n) - 1, n);
  }

  lemma DeleteOrders<T>(h: seq<Entry<T>>, k: nat)
    requires 1 <= k <= |h| && HeapOrdered(h)
    ensures HeapOrdered(Delete(h, k))
  {
    var h1 := h[..|h| - 1];
    forall i | 2 <= i <= |h1| ensures EdgeOrdered(h1, i) {
      assert EdgeOrdered(h, i);
    }
    if k != |h| {
      if k >= 2 {
        forall i | 2 <= i <= |h1| && i / 2 == k ensures At(h1, k / 2).due <= At(h1, i).due {
          assert EdgeOrdered(h1, i) && EdgeOrdered(h1, k);
        }
      }
      ShrIsAncestor(k, BitLength(k) - 1);
      PushOrders(h1, At(h, |h|), BitLength(k) - 1, k);
      SiftDownOrders(Push(h1, At(h, |h|), BitLength(k) - 1, k), k);
    }
  }

  /** In a heap the root is due first. */
  lemma {:induction false} RootIsMin<T>(h: seq<Entry<T>>, i: nat)
    requires HeapOrdered(h) && 1 <= i <= |h|
    ensures At(h, 1).due <= At(h, i).due
  {
    if i > 1 {
      assert EdgeOrdered(h, i);
      RootIsMin(h, i / 2);
    }
  }

  // ------------------------------------------------------------------ members

  lemma PutMembers<T>(h: seq<T>, i: int, x: T)
    requires 1 <= i <= |h|
    ensures multiset(Put(h, i, x)) + multiset{At(h, i)} == multiset(h) + multiset{x}
  {
    assert h == h[..i - 1] + [h[i - 1]] + h[i..];
    assert Put(h, i, x) == h[..i - 1] + [x] + h[i..];
  }

  /** A push replaces the entry at the target position by the carried one. */
  lemma {:induction false} PushMembers<T>(h: seq<Entry<T>>, c: Entry<T>, s: nat, target: nat)
    requires s < BitLength(target) && target <= |h|
    ensures multiset(Push(h, c, s, target)) + multiset{At(h, target)} == multiset(h) + multiset{c}
    decreases s
  {
    ShrIsAncestor(target, s);
    var p := Shr(target, s);
    if s == 0 {
      PutMembers(h, target, c);
    } else if c.due < At(h, p).due {
      PutMembers(h, p, c);
      PushMembers(Put(h, p, c), At(h, p), s - 1, target);
    } else {
      PushMembers(h, c, s - 1, target);
    }
  }

  lemma {:induction false} SiftDownMembers<T>(h: seq<Entry<T>>, i: nat)
    requires 1 <= i <= |h|
    ensures multiset(SiftDown(h, i)) == multiset(h)
    decreases |h| - i
  {
    if 2 * i <= |h| {
      var c := YoungerChild(h, i);
      if At(h, i).due > At(h, c).due {
        var h1 := Put(h, i, At(h, c));
        PutMembers(h, i, At(h, c));
        PutMembers(h1, c, At(h, i));
        SiftDownMembers(Put(h1, c, At(h, i)), c);
      }
    }
  }

  lemma Cancel<T>(a: multiset<T>, b: multiset<T>, c: multiset<T>)
    requires a + c == b + c
    ensures a == b
  {
    assert a == a + c - c && b == b + c - c;
  }

  lemma InsertMembers<T>(h: seq<Entry<T>>, c: Entry<T>)
    ensures multiset(Insert(h, c)) == multiset(h) + multiset{c}
  {
    var g := h + [c];
    PushMembers(g, c, BitLength(|g|) - 1, |g|);
    Cancel(multiset(Insert(h, c)), multiset(h) + multiset{c}, multiset{c});
  }

  lemma DeleteMembers<T>(h: seq<Entry<T>>, k: nat)
    requires 1 <= k <= |h|
    ensures multiset(Delete(h, k)) + multiset{At(h, k)} == multiset(h)
  {
    var h1 := h[..|h| - 1];
    assert h == h1 + [At(h, |h|)];
    if k != |h| {
      PushMembers(h1, At(h, |h|), BitLength(k) - 1, k);
      SiftDownMembers(Push(h1, At(h, |h|), BitLength(k) - 1, k), k);
    }
  }

  /** A push only touches the target position and its ancestors. */
  lemma {:induction false} PushKeepsBeyond<T>(h: seq<Entry<T>>, c: Entry<T>, s: nat, target: nat, i: nat)
    requires s < BitLength(target) && target < i <= |h|
    ensures At(Push(h, c, s, target), i) == At(h, i)
    decreases s
  {
    ShrIsAncestor(target, s);
    var p := Shr(target, s);
    if s > 0 {
      if c.due < At(h, p).due {
        PushKeepsBeyond(Put(h, p, c), At(h, p), s - 1, target, i);
      } else {
        PushKeepsBeyond(h, c, s - 1, target, i);
      }
    }
  }

  /** Whoever is due no later than the carried entry is not moved. */
  lemma {:induction false} PushMovesLater<T>(h: seq<Entry<T>>, c: Entry<T>, s: nat, target: nat, i: nat)
    requires s < BitLength(target) && target <= |h| && 1 <= i <= |h| && i != target && At(h, i).due <= c.due
    ensures At(Push(h, c, s, target), i) == At(h, i)
    decreases s
  {
    ShrIsAncestor(target, s);
    var p := Shr(target, s);
    if s > 0 {
      if c.due < At(h, p).due {
        PushMovesLater(Put(h, p, c), At(h, p), s - 1, target, i);
      } else {
        PushMovesLater(h, c, s - 1, target, i);
      }
    }
  }

  /** An insertion moves only entries that are due later: an entry that is due at the same
      time keeps its place. */
  lemma InsertMovesLater<T>(h: seq<Entry<T>>, c: Entry<T>, i: nat)
    requires 1 <= i <= |h| && At(h, i).due <= c.due
    ensures At(Insert(h, c), i) == At(h, i)
  {
    PushMovesLater(h + [c], c, BitLength(|h| + 1) - 1, |h| + 1, i);
  }

  // -------------------------------------------------------------- who is there

  function Whos<T>(es: seq<Entry<T>>): (r: seq<T>)
    ensures |r| == |es| && forall i :: 0 <= i < |es| ==> r[i] == es[i].who
  {
    seq(|es|, i requires 0 <= i < |es| => es[i].who)
  }

  lemma WhosOfConcat<T>(a: seq<Entry<T>>, b: seq<Entry<T>>)
    ensures Whos(a + b) == Whos(a) + Whos(b)
  {
  }

  lemma RemoveOne<T>(s: seq<T>, j: nat)
    requires j < |s|
    ensures multiset(s[..j] + s[j + 1..]) + multiset{s[j]} == multiset(s)
  {
    assert s == s[..j] + [s[j]] + s[j + 1..];
  }

  lemma IndexOf<T>(s: seq<T>, x: T) returns (j: nat)
    requires x in multiset(s)
    ensures j < |s| && s[j] == x
  {
    j :| 0 <= j < |s| && s[j] == x;
  }

  lemma RemoveBoth<T>(a: seq<T>, i: nat, b: seq<T>, j: nat)
    requires i < |a| && j < |b| && a[i] == b[j] && multiset(a) == multiset(b)
    ensures multiset(a[..i] + a[i + 1..]) == multiset(b[..j] + b[j + 1..])
  {
    RemoveOne(a, i);
    RemoveOne(b, j);
    Cancel(multiset(a[..i] + a[i + 1..]), multiset(b[..j] + b[j + 1..]), multiset{a[i]});
  }

  lemma {:induction false} WhosRemoveOne<T>(es: seq<Entry<T>>, j: nat)
    requires j < |es|
    ensures multiset(Whos(es[..j] + es[j + 1..])) + multiset{es[j].who} == multiset(Whos(es))
  {
    RemoveOne(Whos(es), j);
    assert Whos(es)[..j] + Whos(es)[j + 1..] == Whos(es[..j] + es[j + 1..]);
  }

  /** Rearranged entries are entries of the same threads. */
  lemma {:induction false} WhosOfSameMembers<T>(a: seq<Entry<T>>, b: seq<Entry<T>>)
    requires multiset(a) == multiset(b)
    ensures multiset(Whos(a)) == multiset(Whos(b))
    decreases |a|
  {
    assert |multiset(a)| == |a| && |multiset(b)| == |b|;
    if a != [] {
      var j := IndexOf(b, a[0]);
      var a', b' := a[..0] + a[1..], b[..j] + b[j + 1..];
      RemoveBoth(a, 0, b, j);
      WhosOfSameMembers(a', b');
      WhosRemoveOne(a, 0);
      WhosRemoveOne(b, j);
    }
  }

  // ----------------------------------------------------------- expired entries

  /** The entries that `_st_vp_check_clock` takes off the root while it is due,
      in the order in which it takes them, and the heap that is left. */
  function PopDue<T>(h: seq<Entry<T>>, now: int): (r: (seq<Entry<T>>, seq<Entry<T>>))
    decreases |h|
  {
    if h == [] || At(h, 1).due > now then ([], h)
    else
      var (popped, rest) := PopDue(Delete(h, 1), now);
      ([At(h, 1)] + popped, rest)
  }

  ghost predicate SortedByDue<T>(es: seq<Entry<T>>) {
    forall i, j :: 0 <= i < j < |es| ==> es[i].due <= es[j].due
  }

  /** What `_st_vp_check_clock` promises of the entries it pops and those it leaves. */
  ghost predicate ExactlyDue<T>(h: seq<Entry<T>>, now: int, popped: seq<Entry<T>>, rest: seq<Entry<T>>) {
    && multiset(popped) + multiset(rest) == multiset(h)
    && SortedByDue(popped)
    && (forall e :: e in popped ==> e.due <= now)
    && (forall e :: e in rest ==> now < e.due)
  }

  /** Exactly the entries that are due at `now` are popped, earliest first; what
      is left is a heap of entries that are due later. */
  lemma {:induction false} PopDueIsExact<T>(h: seq<Entry<T>>, now: int)
    requires HeapOrdered(h)
    ensures ExactlyDue(h, now, PopDue(h, now).0, PopDue(h, now).1)
    ensures HeapOrdered(PopDue(h, now).1)
    decreases |h|
  {
    if h == [] || At(h, 1).due > now {
      forall e | e in h ensures now < e.due {
        RootIsMinMember(h, e);
      }
    } else {
      DeleteOrders(h, 1);
      PopDueIsExact(Delete(h, 1), now);
      var (popped, rest) := PopDue(Delete(h, 1), now);
      RootPoppedFirst(h, now, popped, rest);
    }
  }

  lemma RootPoppedFirst<T>(h: seq<Entry<T>>, now: int, popped: seq<Entry<T>>, rest: seq<Entry<T>>)
    requires h != [] && HeapOrdered(h) && At(h, 1).due <= now
    requires ExactlyDue(Delete(h, 1), now, popped, rest)
    ensures ExactlyDue(h, now, [At(h, 1)] + popped, rest)
  {
    var root, d := At(h, 1), Delete(h, 1);
    DeleteMembers(h, 1);
    PrependMembers(root, popped, rest, h, d);
    forall e | e in popped ensures root.due <= e.due {
      assert e in multiset(popped) + multiset(rest);
      RootIsMinMember(h, e);
    }
  }

  lemma RootIsMinMember<T>(h: seq<Entry<T>>, e: Entry<T>)
    requires HeapOrdered(h) && e in multiset(h)
    ensures At(h, 1).due <= e.due
  {
    var i :| 0 <= i < |h| && h[i] == e;
    RootIsMin(h, i + 1);
  }

  lemma PrependMembers<T>(x: T, popped: seq<T>, rest: seq<T>, h: seq<T>, d: seq<T>)
    requires multiset(popped) + multiset(rest) == multiset(d)
    requires multiset(d) + multiset{x} == multiset(h)
    ensures multiset([x] + popped) + multiset(rest) == multiset(h)
    ensures forall e :: e in d ==> e in multiset(h)
  {
    assert multiset([x] + popped) == multiset{x} + multiset(popped);
    forall e | e in d ensures e in multiset(h) {
      assert e in multiset(d) + multiset{x};
    }
  }

  // ------------------------------------------------------------ whole histories

  /** A change of the sleep queue: `_st_add_sleep_q` of an entry, or
      `_st_del_sleep_q` of the entry at a position. */
  datatype Change<+T> = Add(e: Entry<T>) | Remove(at: nat)

  /** Every removal names a position that is occupied at that time. */
  ghost predicate Applicable<T>(h: seq<Entry<T>>, cs: seq<Change<T>>)
    decreases |cs|
  {
    cs == [] ||
    match cs[0]
    case Add(e) => Applicable(Insert(h, e), cs[1..])
    case Remove(k) => 1 <= k <= |h| && Applicable(Delete(h, k), cs[1..])
  }

  function Replay<T>(h: seq<Entry<T>>, cs: seq<Change<T>>): seq<Entry<T>>
    requires Applicable(h, cs)
    decreases |cs|
  {
    if cs == [] then h
    else match cs[0]
      case Add(e) => Replay(Insert(h, e), cs[1..])
      case Remove(k) => Replay(Delete(h, k), cs[1..])
  }

  ghost function Added<T>(cs: seq<Change<T>>): multiset<Entry<T>>
    decreases |cs|
  {
    if cs == [] then multiset{}
    else match cs[0]
      case Add(e) => multiset{e} + Added(cs[1..])
      case Remove(_) => Added(cs[1..])
  }

  ghost function Removed<T>(h: seq<Entry<T>>, cs: seq<Change<T>>): multiset<Entry<T>>
    requires Applicable(h, cs)
    decreases |cs|
  {
    if cs == [] then multiset{}
    else match cs[0]
      case Add(e) => Removed(Insert(h, e), cs[1..])
      case Remove(k) => multiset{At(h, k)} + Removed(Delete(h, k), cs[1..])
  }

  lemma OnBothSides<T>(a: multiset<T>, b: multiset<T>, c: multiset<T>, d: multiset<T>, x: multiset<T>)
    requires a + b == c + d
    ensures a + (x + b) == (c + x) + d
  {
    assert a + (x + b) == (a + b) + x;
  }

  /** After any sequence of insertions and deletions of any member, the layout is
      in heap order and holds exactly what was inserted and not deleted. */
  lemma {:induction false} ReplayKeepsHeap<T>(h: seq<Entry<T>>, cs: seq<Change<T>>)
    requires HeapOrdered(h) && Applicable(h, cs)
    ensures HeapOrdered(Replay(h, cs))
    ensures multiset(Replay(h, cs)) + Removed(h, cs) == multiset(h) + Added(cs)
    decreases |cs|
  {
    if cs != [] {
      match cs[0]
      case Add(e) =>
        InsertOrders(h, e);
        InsertMembers(h, e);
        ReplayKeepsHeap(Insert(h, e), cs[1..]);
      case Remove(k) =>
        DeleteOrders(h, k);
        DeleteMembers(h, k);
        var d := Delete(h, k);
        ReplayKeepsHeap(d, cs[1..]);
        OnBothSides(multiset(Replay(h, cs)), Removed(d, cs[1..]), multiset(d), Added(cs), multiset{At(h, k)});
    }
  }
}
