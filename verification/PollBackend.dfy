/** The poll event system of state-threads/event.c: a count of descriptors and an
    array into which every dispatch gathers the descriptors of the io queue. */
module PollBackend {
  import opened PollSets
  import opened SeqFacts
  import opened HeapLayout
  import opened Timeouts

  const ST_MIN_POLLFDS_SIZE: nat := 64

  /** The up-front checks of `_st_poll_pollset_add`. */
  predicate Acceptable(pds: seq<PollFd>) {
    forall i :: 0 <= i < |pds| ==> 0 <= pds[i].fd && pds[i].events != {}
  }

  class Poll {
    var pollfds: array<PollFd>
    var pollfdsSize: nat
    var fdcnt: nat
    var ioQ: seq<PollQ>

    /** The descriptor count is the sum over the io queue. */
    ghost predicate Valid()
      reads this
    {
      && pollfds.Length == pollfdsSize
      && fdcnt == |Flat(ioQ)|
      && (forall i :: 0 <= i < |ioQ| ==> Acceptable(ioQ[i].pds))
    }

    constructor ()
      ensures Valid() && ioQ == [] && fresh(pollfds)
    {
      pollfds := new PollFd[ST_MIN_POLLFDS_SIZE](_ => PollFd(0, {}, {}));
      pollfdsSize, fdcnt, ioQ := ST_MIN_POLLFDS_SIZE, 0, [];
    }

    /** `_st_poll_pollset_add`. */
    method PollsetAdd(pds: seq<PollFd>) returns (ok: bool)
      modifies this`fdcnt
      ensures ok <==> Acceptable(pds)
      ensures fdcnt == old(fdcnt) + if ok then |pds| else 0
    {
      var i := 0;
      while i < |pds|
        invariant 0 <= i <= |pds| && forall j :: 0 <= j < i ==> 0 <= pds[j].fd && pds[j].events != {}
      {
        if pds[i].fd < 0 || pds[i].events == {} {
          return false;
        }
        i := i + 1;
      }
      fdcnt := fdcnt + |pds|;
      return true;
    }

    /** `_st_poll_pollset_del`. */
    method PollsetDel(pds: seq<PollFd>)
      requires |pds| <= fdcnt
      modifies this`fdcnt
      ensures fdcnt == old(fdcnt) - |pds|
    {
      fdcnt := fdcnt - |pds|;
    }

    /** `pollset_add` followed by `_ST_ADD_IOQ`, as `st_poll` does it. */
    method Enqueue(pq: PollQ) returns (ok: bool)
      requires Valid()
      modifies this`fdcnt, this`ioQ
      ensures Valid() && (ok <==> Acceptable(pq.pds))
      ensures ioQ == if ok then old(ioQ) + [pq] else old(ioQ)
    {
      ok := PollsetAdd(pq.pds);
      if ok {
        CountAppended(ioQ, pq);
        ioQ := ioQ + [pq];
      }
    }

    /** `_ST_DEL_IOQ` followed by `pollset_del`, for an element that timed out. */
    method Withdraw(n: nat)
      requires Valid() && n < |ioQ|
      modifies this`fdcnt, this`ioQ
      ensures Valid() && ioQ == RemoveAt(old(ioQ), n)
    {
      var pq := ioQ[n];
      FlatWithout(ioQ, n);
      ioQ := ioQ[..n] + ioQ[n + 1..];
      PollsetDel(pq.pds);
    }

    /** The array is replaced by a larger one if it is too small. */
    method Grow()
      requires Valid()
      modifies this`pollfds, this`pollfdsSize
      ensures Valid() && fdcnt <= pollfdsSize
      ensures pollfds == old(pollfds) || fresh(pollfds)
    {
      if fdcnt > pollfdsSize {
        pollfds := new PollFd[fdcnt + 10](_ => PollFd(0, {}, {}));
        pollfdsSize := fdcnt + 10;
      }
    }

    /** `memcpy` of descriptors into the array. */
    method Copy(at: nat, pds: seq<PollFd>)
      requires at + |pds| <= pollfds.Length
      modifies pollfds
      ensures pollfds[..at + |pds|] == old(pollfds[..at]) + pds
    {
      forall i | 0 <= i < |pds| {
        pollfds[at + i] := pds[i];
      }
    }

    /** All descriptors are gathered into the array. */
    method Gather()
      requires Valid() && fdcnt <= pollfdsSize
      modifies pollfds
      ensures Valid() && pollfds[..fdcnt] == Flat(ioQ)
    {
      var n, at := 0, 0;
      while n < |ioQ|
        invariant 0 <= n <= |ioQ| && at == |Flat(ioQ[..n])| <= fdcnt
        invariant pollfds[..at] == Flat(ioQ[..n])
      {
        FlatPrefix(ioQ, n);
        Copy(at, ioQ[n].pds);
        at := at + |ioQ[n].pds|;
        n := n + 1;
      }
      assert ioQ[..n] == ioQ;
    }

    /** The kernel's `poll` on the first `fdcnt` elements. */
    method KernelPoll(ready: Ready) returns (nfd: nat)
      requires fdcnt <= pollfds.Length
      modifies pollfds
      ensures pollfds[..fdcnt] == FireAll(old(pollfds[..fdcnt]), ByPoll(ready))
      ensures nfd > 0 <==> Notified(pollfds[..fdcnt])
    {
      nfd := 0;
      var i := 0;
      while i < fdcnt
        invariant 0 <= i <= fdcnt
        invariant forall j :: 0 <= j < i ==> pollfds[j] == Fire(old(pollfds[j]), ByPoll(ready))
        invariant forall j :: i <= j < fdcnt ==> pollfds[j] == old(pollfds[j])
        invariant nfd > 0 <==> exists j :: 0 <= j < i && pollfds[j].revents != {}
      {
        pollfds[i] := pollfds[i].(revents := Revents(pollfds[i], ByPoll(ready)));
        if pollfds[i].revents != {} {
          nfd := nfd + 1;
        }
        i := i + 1;
      }
    }

    /** The scan of one slice: has any of its descriptors something to report? */
    method Scan(at: nat, npds: nat) returns (notify: bool)
      requires at + npds <= pollfds.Length
      ensures notify <==> Notified(pollfds[at..at + npds])
    {
      var i := at;
      while i < at + npds
        invariant at <= i <= at + npds && forall j :: at <= j < i ==> pollfds[j].revents == {}
      {
        if pollfds[i].revents != {} {
          assert pollfds[at..at + npds][i - at].revents != {};
          return true;
        }
        i := i + 1;
      }
      return false;
    }

    /** The slice of the array that starts at `at` holds what the kernel reports on
        the elements `q`. */
    ghost predicate Slice(at: nat, q: seq<PollQ>, ready: Ready)
      reads this, pollfds
    {
      at + |Flat(q)| <= pollfds.Length && pollfds[at..at + |Flat(q)|] == FireAll(Flat(q), ByPoll(ready))
    }

    /** The first element of a slice, and the rest of it. */
    lemma SliceStep(at: nat, q: seq<PollQ>, ready: Ready)
      requires q != [] && Slice(at, q, ready)
      ensures at + |q[0].pds| <= pollfds.Length
      ensures pollfds[at..at + |q[0].pds|] == FireAll(q[0].pds, ByPoll(ready))
      ensures Slice(at + |q[0].pds|, q[1..], ready)
    {
      var s := pollfds[at..at + |Flat(q)|];
      assert pollfds[at..at + |q[0].pds|] == s[..|q[0].pds|];
      assert pollfds[at + |q[0].pds|..at + |Flat(q)|] == s[|q[0].pds|..];
    }

    /** The element at `n`, and the slice of those after it. */
    lemma SliceNext(at: nat, n: nat, ready: Ready)
      requires n < |ioQ| && Slice(at, ioQ[n..], ready)
      ensures at + |ioQ[n].pds| <= pollfds.Length
      ensures pollfds[at..at + |ioQ[n].pds|] == FireAll(ioQ[n].pds, ByPoll(ready))
      ensures Slice(at + |ioQ[n].pds|, ioQ[n + 1..], ready)
    {
      SliceStep(at, ioQ[n..], ready);
      DropDrop(ioQ, n, 1);
    }

    /** The element at `n` leaves the io queue with the reports `pds`; the slice of those
        after it starts at `next`. */
    method Leave(n: nat, pds: seq<PollFd>, ghost next: nat, ghost ready: Ready) returns (w: seq<PollQ>)
      requires Valid() && n < |ioQ| && pds == FireAll(ioQ[n].pds, ByPoll(ready)) && Notified(pds)
      requires Slice(next, ioQ[n + 1..], ready)
      modifies this`fdcnt, this`ioQ
      ensures Valid() && |ioQ| == old(|ioQ|) - 1 && Slice(next, ioQ[n..], ready)
      ensures w != [] && Turned(old(ioQ), ioQ, n, w, ByPoll(ready))
    {
      FlatWithout(ioQ, n);
      RemoveAtParts(ioQ, n);
      TurnedOff(ioQ, n, ByPoll(ready));
      w := [ioQ[n].(pds := pds)];
      fdcnt := fdcnt - |ioQ[n].pds|;
      ioQ := ioQ[..n] + ioQ[n + 1..];
    }

    /** One turn of the loop over the io queue; `at` is where the slice of the
        element at `n` starts. */
    method ServeTurn(n: nat, at: nat, ghost ready: Ready) returns (w: seq<PollQ>, n': nat, at': nat)
      requires Valid() && n < |ioQ| && Slice(at, ioQ[n..], ready)
      modifies this`fdcnt, this`ioQ
      ensures Valid() && n' <= |ioQ| && |ioQ| - n' < old(|ioQ|) - n
      ensures Slice(at', ioQ[n'..], ready)
      ensures n == (if w == [] then n' - 1 else n') && Turned(old(ioQ), ioQ, n', w, ByPoll(ready))
    {
      var pq := ioQ[n];
      SliceNext(at, n, ready);
      var notify := Scan(at, |pq.pds|);
      at' := at + |pq.pds|;
      if notify {
        n' := n;
        w := Leave(n, pollfds[at..at + |pq.pds|], at', ready);
      } else {
        w, n' := [], n + 1;
        TurnedPast(ioQ, n, ByPoll(ready));
      }
    }

    /** The loop over the io queue. */
    method Serve(ghost ready: Ready) returns (woken: seq<PollQ>)
      requires Valid() && Slice(0, ioQ, ready)
      modifies this`fdcnt, this`ioQ
      ensures Valid()
      ensures woken == Woken(old(ioQ), ByPoll(ready)) && StripQ(ioQ) == Kept(old(ioQ), ByPoll(ready))
    {
      woken := [];
      var n: nat, at: nat := 0, 0;
      assert ioQ[0..] == ioQ && StripQ(ioQ[..0]) == [];
      ghost var goal, kept := Woken(ioQ, ByPoll(ready)), Kept(ioQ, ByPoll(ready));
      while n < |ioQ|
        invariant Valid() && 0 <= n <= |ioQ| && 0 <= at && Slice(at, ioQ[n..], ready)
        invariant woken + Woken(ioQ[n..], ByPoll(ready)) == goal
        invariant StripQ(ioQ[..n]) + Kept(ioQ[n..], ByPoll(ready)) == kept
        decreases |ioQ| - n
      {
        ghost var q := ioQ;
        var w;
        w, n, at := ServeTurn(n, at, ready);
        TurnedKeepsSum(q, ioQ, n, w, ByPoll(ready), woken);
        woken := woken + w;
      }
      assert ioQ[..n] == ioQ && ioQ[n..] == [];
    }

    /** `_st_poll_dispatch`. */
    method Dispatch(ready: Ready, sleepQ: seq<Entry<int>>, lastClock: int)
        returns (woken: seq<PollQ>, timeout: int)
      requires Valid()
      modifies this, pollfds
      ensures Valid() && (pollfds == old(pollfds) || fresh(pollfds))
      ensures woken == Woken(old(ioQ), ByPoll(ready)) && StripQ(ioQ) == Kept(old(ioQ), ByPoll(ready))
      ensures timeout == PollTimeout(sleepQ, lastClock)
    {
      Grow();
      Gather();
      timeout := PollTimeout(sleepQ, lastClock);
      var nfd := KernelPoll(ready);
      woken := [];
      if nfd > 0 {
        woken := Serve(ready);
      } else {
        SilentKernel(ioQ, ready);
      }
    }
  }

  lemma {:induction false} FlatWithout(q: seq<PollQ>, n: nat)
    requires n < |q|
    ensures |Flat(q)| == |Flat(RemoveAt(q, n))| + |q[n].pds|
  {
    assert q == q[..n] + ([q[n]] + q[n + 1..]);
    FlatConcat(q[..n], [q[n]] + q[n + 1..]);
    FlatConcat(q[..n], q[n + 1..]);
  }

  lemma FlatPrefix(q: seq<PollQ>, n: nat)
    requires n < |q|
    ensures Flat(q[..n + 1]) == Flat(q[..n]) + q[n].pds
    ensures |Flat(q[..n + 1])| <= |Flat(q)|
  {
    assert q[..n + 1] == q[..n] + [q[n]];
    CountAppended(q[..n], q[n]);
    assert q == q[..n + 1] + q[n + 1..];
    FlatConcat(q[..n + 1], q[n + 1..]);
  }

  /** If no gathered descriptor fires, no element is woken. */
  lemma {:induction false} SilentKernel(q: seq<PollQ>, ready: Ready)
    requires !Notified(FireAll(Flat(q), ByPoll(ready)))
    ensures Woken(q, ByPoll(ready)) == [] && Kept(q, ByPoll(ready)) == StripQ(q)
  {
    if q != [] {
      var all, pds, rest := FireAll(Flat(q), ByPoll(ready)), FireAll(q[0].pds, ByPoll(ready)), FireAll(Flat(q[1..]), ByPoll(ready));
      assert all == pds + rest;
      NotifiedConcat(pds, rest);
      SilentKernel(q[1..], ready);
      assert StripQ(q) == [StripQ(q)[0]] + StripQ(q[1..]);
    }
  }
}
