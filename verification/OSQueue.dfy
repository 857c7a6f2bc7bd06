/** The intrusive circular list of
    FrameWork/CommonUtilitiesLib-linux-windows/OSQueue.cpp, which the task queues
    and the block cache keep their elements on. */
module OSQueue {
  import opened SeqFacts

  class Elem {
    var next: Elem?
    var prev: Elem?
    var owner: Queue?                  // fQueue

    constructor ()
      ensures owner == null
    {
      next, prev, owner := null, null, null;
    }
  }

  // ------------------------------------------------------- rings and their links

  /** The position after `i`, once around. */
  function After(i: nat, n: nat): nat {
    if i + 1 == n then 0 else i + 1
  }

  ghost predicate Distinct(r: seq<Elem>) {
    forall i, j :: 0 <= i < j < |r| ==> r[i] != r[j]
  }

  ghost function Nexts(r: seq<Elem>): (n: seq<Elem?>)
    reads r
    ensures |n| == |r| && forall i :: 0 <= i < |r| ==> n[i] == r[i].next
  {
    seq(|r|, i requires 0 <= i < |r| reads r => r[i].next)
  }

  ghost function Prevs(r: seq<Elem>): (p: seq<Elem?>)
    reads r
    ensures |p| == |r| && forall i :: 0 <= i < |r| ==> p[i] == r[i].prev
  {
    seq(|r|, i requires 0 <= i < |r| reads r => r[i].prev)
  }

  /** With these links the element at `j` leads to the one after it, and that one back. */
  ghost predicate JoinedAt(r: seq<Elem>, nexts: seq<Elem?>, prevs: seq<Elem?>, j: nat)
    requires j < |r| == |nexts| == |prevs|
  {
    nexts[j] == r[After(j, |r|)] && prevs[After(j, |r|)] == r[j]
  }

  ghost predicate Joined(r: seq<Elem>, nexts: seq<Elem?>, prevs: seq<Elem?>) {
    && |r| == |nexts| == |prevs| && Distinct(r)
    && forall j :: 0 <= j < |r| ==> JoinedAt(r, nexts, prevs, j)
  }

  ghost predicate Circular(r: seq<Elem>)
    reads r
  {
    Joined(r, Nexts(r), Prevs(r))
  }

  /** One more, next to the start. */
  ghost function Grown<T>(s: seq<T>, x: T): (g: seq<T>)
    requires s != []
    ensures |g| == |s| + 1 && forall i :: 0 <= i < |g| ==> g[i] == if i == 0 then s[0] else if i == 1 then x else s[i - 1]
  {
    [s[0]] + ([x] + s[1..])
  }

  /** The links that join one more element to a ring. */
  lemma Inserted(r: seq<Elem>, elem: Elem, nexts: seq<Elem?>, prevs: seq<Elem?>)
    requires Joined(r, nexts, prevs) && r != [] && elem !in r
    ensures Joined(Grown(r, elem), Grown(nexts[0 := elem], nexts[0]), Grown(prevs[After(0, |r|) := elem], r[0]))
  {
    var w, n, p := Grown(r, elem), Grown(nexts[0 := elem], nexts[0]), Grown(prevs[After(0, |r|) := elem], r[0]);
    forall j | 0 <= j < |w| ensures JoinedAt(w, n, p, j) {
      var i := if j < 2 then 0 else j - 1;
      assert JoinedAt(r, nexts, prevs, i);
    }
  }

  /** The links that leave out the element at position `k`. */
  lemma Bypassed(r: seq<Elem>, k: nat, nexts: seq<Elem?>, prevs: seq<Elem?>)
    requires Joined(r, nexts, prevs) && 0 < k < |r|
    ensures Joined(RemoveAt(r, k), RemoveAt(nexts[k - 1 := r[After(k, |r|)]], k), RemoveAt(prevs[After(k, |r|) := r[k - 1]], k))
  {
    var w := RemoveAt(r, k);
    var n, p := RemoveAt(nexts[k - 1 := r[After(k, |r|)]], k), RemoveAt(prevs[After(k, |r|) := r[k - 1]], k);
    forall j | 0 <= j < |w| ensures JoinedAt(w, n, p, j) {
      var i := if j < k then j else j + 1;
      assert JoinedAt(r, nexts, prevs, i);
      assert w[j] == r[i];
    }
  }

  lemma LinksGrown(r: seq<Elem>, elem: Elem)
    requires r != []
    ensures Nexts(Grown(r, elem)) == Grown(Nexts(r), elem.next) && Prevs(Grown(r, elem)) == Grown(Prevs(r), elem.prev)
  {
  }

  lemma LinksWithout(r: seq<Elem>, k: nat)
    requires k < |r|
    ensures Nexts(RemoveAt(r, k)) == RemoveAt(Nexts(r), k) && Prevs(RemoveAt(r, k)) == RemoveAt(Prevs(r), k)
  {
  }

  lemma OnceOnRing(r: seq<Elem>, k: nat)
    requires k < |r| && Distinct(r)
    ensures forall j :: 0 <= j < |r| ==> (r[j] == r[k] <==> j == k)
  {
  }

  // -------------------------------------------------------------- changes of links

  method SetPrev(e: Elem, to: Elem?, ghost r: seq<Elem>, ghost k: nat)
    requires Distinct(r) && k < |r| && r[k] == e
    modifies e`prev
    ensures Nexts(r) == old(Nexts(r)) && Prevs(r) == old(Prevs(r))[k := to]
  {
    OnceOnRing(r, k);
    e.prev := to;
  }

  method SetNext(e: Elem, to: Elem?, ghost r: seq<Elem>, ghost k: nat)
    requires Distinct(r) && k < |r| && r[k] == e
    modifies e`next
    ensures Prevs(r) == old(Prevs(r)) && Nexts(r) == old(Nexts(r))[k := to]
  {
    OnceOnRing(r, k);
    e.next := to;
  }

  method SetOwner(e: Elem, owner: Queue?, ghost r: seq<Elem>)
    modifies e`owner
    ensures e.owner == owner && Nexts(r) == old(Nexts(r)) && Prevs(r) == old(Prevs(r))
  {
    e.owner := owner;
  }

  /** The links of an element that is not on the ring. */
  method SetBoth(e: Elem, next: Elem?, prev: Elem?, ghost r: seq<Elem>)
    requires e !in r
    modifies e`next, e`prev
    ensures e.next == next && e.prev == prev && Nexts(r) == old(Nexts(r)) && Prevs(r) == old(Prevs(r))
  {
    e.next, e.prev := next, prev;
  }

  /** The element is linked in next to the start of the ring. */
  method LinkIn(first: Elem, elem: Elem, ghost r: seq<Elem>)
    requires Circular(r) && r != [] && first == r[0] && elem !in r
    modifies r`next, r`prev, elem`next, elem`prev
    ensures Circular(Grown(r, elem))
  {
    ghost var nexts, prevs := Nexts(r), Prevs(r);
    SetBoth(elem, first.next, first, r);
    assert JoinedAt(r, nexts, prevs, 0) && first.next == nexts[0];
    SetPrev(first.next, elem, r, After(0, |r|));
    SetNext(first, elem, r, 0);
    Inserted(r, elem, nexts, prevs);
    LinksGrown(r, elem);
  }

  /** The neighbours of the element at ring position `k` are linked to each other. */
  method Bypass(elem: Elem, ghost r: seq<Elem>, ghost k: nat)
    requires Circular(r) && 0 < k < |r| && elem == r[k]
    modifies r`next, r`prev
    ensures Circular(RemoveAt(r, k))
  {
    ghost var nexts, prevs, b, a := Nexts(r), Prevs(r), k - 1, After(k, |r|);
    assert k == After(b, |r|) && JoinedAt(r, nexts, prevs, b) && JoinedAt(r, nexts, prevs, k);
    assert elem.prev == prevs[k] == r[b] && elem.next == nexts[k] == r[a];
    SetPrev(elem.next, elem.prev, r, a);
    assert k != a && elem.prev == Prevs(r)[k] == r[b] && elem.next == Nexts(r)[k] == r[a];
    SetNext(elem.prev, elem.next, r, b);
    Bypassed(r, k, nexts, prevs);
    LinksWithout(r, k);
  }

  // --------------------------------------------------------------------- the queue

  class Queue {
    const sentinel: Elem
    var length: nat
    ghost var elems: seq<Elem>         // from the tail to the head

    /** The sentinel and the elements, once around. */
    ghost function Ring(): (r: seq<Elem>)
      reads this
      ensures |r| == |elems| + 1
    {
      [sentinel] + elems
    }

    ghost predicate Valid()
      reads this, sentinel, elems
    {
      && length == |elems|
      && sentinel.owner == null
      && (forall e :: e in elems ==> e.owner == this)
      && Circular(Ring())
    }

    constructor ()
      ensures Valid() && elems == [] && fresh(sentinel)
    {
      sentinel := new Elem();
      length, elems := 0, [];
      new;
      sentinel.next, sentinel.prev := sentinel, sentinel;
    }

    /** `EnQueue`: an element that is on no queue goes to the tail. */
    method EnQueue(elem: Elem)
      requires Valid() && elem != sentinel && (elem.owner == this <==> elem in elems)
      requires elem.owner == this || elem.owner == null
      modifies this`length, this`elems, sentinel, elems, elem
      ensures Valid() && elem.owner == this
      ensures elems == if old(elem.owner) == this then old(elems) else [elem] + old(elems)
    {
      if elem.owner == this {
        return;
      }
      ghost var w := Grown(Ring(), elem);
      RingGrown(sentinel, elem, elems);
      LinkIn(sentinel, elem, Ring());
      SetOwner(elem, this, w);
      forall e | e in [elem] + elems ensures e.owner == this {
        assert e == elem || e in elems;
      }
      assert Circular(w);
      length := length + 1;
      elems := [elem] + elems;
      assert Ring() == w;
    }

    static lemma RingGrown(first: Elem, elem: Elem, elems: seq<Elem>)
      ensures Grown([first] + elems, elem) == [first] + ([elem] + elems)
    {
    }

    /** The element at ring position `k` leaves the queue. */
    method Unlink(elem: Elem, ghost k: nat)
      requires Valid() && 0 < k <= |elems| && elem == elems[k - 1]
      modifies this`length, this`elems, sentinel, elems
      ensures Valid() && elems == RemoveAt(old(elems), k - 1) && elem.owner == null
    {
      ghost var rest, w := RemoveAt(elems, k - 1), RemoveAt(Ring(), k);
      RingWithout(sentinel, elems, k);
      Bypass(elem, Ring(), k);
      SetOwner(elem, null, w);
      forall e | e in rest ensures e.owner == this {
        assert e in elems && e != elem;
      }
      assert Circular(w);
      length := length - 1;
      elems := rest;
      assert Ring() == w;
    }

    /** What is left on the ring, and that it is not the element that was taken off. */
    static lemma RingWithout(first: Elem, elems: seq<Elem>, k: nat)
      requires 0 < k <= |elems| && Distinct([first] + elems)
      ensures [first] + RemoveAt(elems, k - 1) == RemoveAt([first] + elems, k) && first != elems[k - 1]
      ensures forall e :: e in RemoveAt(elems, k - 1) ==> e in elems && e != elems[k - 1]
    {
      var r, w := [first] + elems, RemoveAt(elems, k - 1);
      assert r[0] == first && r[k] == elems[k - 1];
      forall e | e in w ensures e in elems && e != elems[k - 1] {
        var i :| 0 <= i < |w| && w[i] == e;
        var j := if i < k - 1 then i else i + 1;
        assert elems[j] == e == r[j + 1];
      }
    }

    /** `DeQueue`: the element at the head, if there is one. */
    method DeQueue() returns (elem: Elem?)
      requires Valid()
      modifies this`length, this`elems, sentinel, elems
      ensures Valid()
      ensures if old(elems) == [] then elem == null && elems == []
        else elem == old(elems)[|old(elems)| - 1] && elem.owner == null && elems == old(elems)[..|old(elems)| - 1]
    {
      if length > 0 {
        assert JoinedAt(Ring(), Nexts(Ring()), Prevs(Ring()), |elems|);
        elem := sentinel.prev;
        Unlink(elem, |elems|);
      } else {
        elem := null;
      }
    }

    /** `Remove`: an element of this queue is unlinked, wherever it is; any other is
        left alone. */
    method Remove(elem: Elem)
      requires Valid() && elem != sentinel && (elem.owner == this <==> elem in elems)
      modifies this`length, this`elems, sentinel, elems
      ensures Valid() && elem !in elems
      ensures elems == Without(old(elems), elem)
      ensures elem.owner == if old(elem.owner) == this then null else old(elem.owner)
    {
      ghost var at := WithoutAt(elems, elem);
      RestIsDistinct(sentinel, elems);
      WithoutLess(elems, elem);
      if elem.owner == this {
        Unlink(elem, at + 1);
      }
    }

    /** `FileBlockPool::MarkUsed`: an element goes to the tail, if it is not there. */
    method MoveToTail(elem: Elem)
      requires Valid() && elem != sentinel && elem.owner == this && elem in elems
      modifies this`length, this`elems, sentinel, elems
      ensures Valid() && elem.owner == this && elems == [elem] + Without(old(elems), elem)
    {
      assert JoinedAt(Ring(), Nexts(Ring()), Prevs(Ring()), 0);
      if sentinel.next != elem {
        RestIsDistinct(sentinel, elems);
        WithoutLess(elems, elem);
        ghost var rest := Without(elems, elem);
        Remove(elem);
        assert elems == rest && elem in old(elems);
        assert forall i :: 0 <= i < |elems| ==> elems[i] in old(elems);
        EnQueue(elem);
      }
    }

    static lemma RestIsDistinct(first: Elem, elems: seq<Elem>)
      requires Distinct([first] + elems)
      ensures Distinct(elems)
    {
      forall i, j | 0 <= i < j < |elems| ensures elems[i] != elems[j] {
        assert ([first] + elems)[i + 1] != ([first] + elems)[j + 1];
      }
    }
  }
}
