/** The heap of linked thread records and the heap of thread names behave alike. */
module HeapNames {
  import opened HeapLayout
  import H = TimeoutHeap

  function NameOf(e: Entry<H.Thread>): Entry<int> {
    Entry(e.who.id, e.due)
  }

  function Named(h: seq<Entry<H.Thread>>): (r: seq<Entry<int>>)
    ensures |r| == |h| && forall i :: 0 <= i < |h| ==> r[i] == NameOf(h[i])
  {
    seq(|h|, i requires 0 <= i < |h| => NameOf(h[i]))
  }

  lemma NamedPut(h: seq<Entry<H.Thread>>, k: nat, e: Entry<H.Thread>)
    requires 1 <= k <= |h|
    ensures Named(Put(h, k, e)) == Put(Named(h), k, NameOf(e))
  {
  }

  lemma {:induction false} NamedPush(h: seq<Entry<H.Thread>>, c: Entry<H.Thread>, s: nat, target: nat)
    requires s < BitLength(target) && target <= |h|
    ensures Named(Push(h, c, s, target)) == Push(Named(h), NameOf(c), s, target)
    decreases s
  {
    ShrIsAncestor(target, s);
    var p := Shr(target, s);
    NamedPut(h, p, c);
    if s > 0 {
      NamedPush(if c.due < At(h, p).due then Put(h, p, c) else h, if c.due < At(h, p).due then At(h, p) else c, s - 1, target);
    } else {
      NamedPut(h, target, c);
    }
  }

  lemma NamedInsert(h: seq<Entry<H.Thread>>, c: Entry<H.Thread>)
    ensures Named(Insert(h, c)) == Insert(Named(h), NameOf(c))
  {
    assert Named(h + [c]) == Named(h) + [NameOf(c)];
    NamedPush(h + [c], c, BitLength(|h| + 1) - 1, |h| + 1);
  }

  lemma {:induction false} NamedSiftDown(h: seq<Entry<H.Thread>>, i: nat)
    requires 1 <= i <= |h|
    ensures Named(SiftDown(h, i)) == SiftDown(Named(h), i)
    decreases |h| - i
  {
    if 2 * i <= |h| {
      var c := YoungerChild(h, i);
      if At(h, i).due > At(h, c).due {
        NamedPut(h, i, At(h, c));
        NamedPut(Put(h, i, At(h, c)), c, At(h, i));
        NamedSiftDown(Put(Put(h, i, At(h, c)), c, At(h, i)), c);
      }
    }
  }

  lemma NamedDelete(h: seq<Entry<H.Thread>>, k: nat)
    requires 1 <= k <= |h|
    ensures Named(Delete(h, k)) == Delete(Named(h), k)
  {
    var h1 := h[..|h| - 1];
    assert Named(h1) == Named(h)[..|h| - 1];
    if k < |h| {
      NamedPush(h1, At(h, |h|), BitLength(k) - 1, k);
      NamedSiftDown(Push(h1, At(h, |h|), BitLength(k) - 1, k), k);
    }
  }
}
