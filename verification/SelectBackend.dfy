/** The select event system of state-threads/event.c: reference counts per
    descriptor and direction, three fd_sets and an upper bound for descriptors. */
module SelectBackend {
  import opened PollSets
  import opened SeqFacts
  import opened HeapLayout
  import opened Timeouts

  const FD_SETSIZE: int := 1024

  function BitAt(k: nat): Bit
    requires k < 3
  {
    [IN, OUT, PRI][k]
  }

  /** The up-front checks of `_st_select_pollset_add`. */
  predicate Acceptable(pds: seq<PollFd>) {
    forall i :: 0 <= i < |pds| ==> 0 <= pds[i].fd < FD_SETSIZE && pds[i].events != {} && pds[i].events <= IO_BITS
  }

  ghost predicate Below(pds: seq<PollFd>, m: int) {
    forall i :: 0 <= i < |pds| ==> pds[i].fd <= m
  }

  /** The kernel's `select` on one set. */
  function Selected(fds: set<int>, nfds: int, ready: Ready, bit: Bit): set<int> {
    set fd | fd in fds && fd < nfds && bit in ReadyOn(ready, fd)
  }

  class Select {
    const refCnts: array2<nat>            // fd_ref_cnts[FD_SETSIZE][3]
    var fdSets: seq<set<int>>             // fd_read_set, fd_write_set, fd_exception_set
    var maxfd: int
    var ioQ: seq<PollQ>

    /** Counts and bits are those of the descriptors `pds`, counted `CountOn`. */
    ghost predicate Counts(pds: seq<PollFd>)
      reads this, refCnts
    {
      && BitsMatch()
      && (forall fd, k :: 0 <= fd < FD_SETSIZE && 0 <= k < 3 ==> refCnts[fd, k] == CountOn(pds, fd, BitAt(k)))
    }

    /** A descriptor is in a set iff its count for that direction is positive. */
    ghost predicate BitsMatch()
      reads this, refCnts
    {
      && refCnts.Length0 == FD_SETSIZE && refCnts.Length1 == 3 && |fdSets| == 3
      && (forall fd, k :: 0 <= fd < FD_SETSIZE && 0 <= k < 3 ==> (fd in fdSets[k] <==> refCnts[fd, k] > 0))
      && (forall fd, k :: 0 <= k < 3 && fd in fdSets[k] ==> 0 <= fd < FD_SETSIZE)
    }

    /** The bookkeeping equals a recount over the io queue. */
    ghost predicate Valid()
      reads this, refCnts
    {
      && (forall i :: 0 <= i < |ioQ| ==> Acceptable(ioQ[i].pds) && Below(ioQ[i].pds, maxfd))
      && Counts(Flat(ioQ))
    }

    constructor ()
      ensures Valid() && ioQ == [] && fresh(refCnts)
    {
      refCnts := new nat[FD_SETSIZE, 3]((i, j) => 0);
      fdSets, maxfd, ioQ := [{}, {}, {}], -1, [];
    }

    /** `FD_SET` and the increment that goes with it. */
    method Hold(fd: int, k: nat)
      requires 0 <= fd < FD_SETSIZE && k < 3 && BitsMatch()
      modifies refCnts, this`fdSets
      ensures BitsMatch()
      ensures forall f, j :: 0 <= f < FD_SETSIZE && 0 <= j < 3 ==>
        refCnts[f, j] == old(refCnts[f, j]) + if f == fd && j == k then 1 else 0
    {
      fdSets := fdSets[k := fdSets[k] + {fd}];
      refCnts[fd, k] := refCnts[fd, k] + 1;
    }

    /** The decrement, and `FD_CLR` when it reaches zero. */
    method Drop(fd: int, k: nat)
      requires 0 <= fd < FD_SETSIZE && k < 3 && BitsMatch() && refCnts[fd, k] > 0
      modifies refCnts, this`fdSets
      ensures BitsMatch()
      ensures forall f, j :: 0 <= f < FD_SETSIZE && 0 <= j < 3 ==>
        refCnts[f, j] == old(refCnts[f, j]) - if f == fd && j == k then 1 else 0
    {
      refCnts[fd, k] := refCnts[fd, k] - 1;
      if refCnts[fd, k] == 0 {
        fdSets := fdSets[k := fdSets[k] - {fd}];
      }
    }

    /** `_st_select_pollset_add`. */
    method PollsetAdd(pds: seq<PollFd>, ghost base: seq<PollFd>) returns (ok: bool)
      requires Counts(base)
      modifies refCnts, this`fdSets, this`maxfd
      ensures ok <==> Acceptable(pds)
      ensures Counts(if ok then base + pds else base)
      ensures maxfd >= old(maxfd) && (!ok ==> maxfd == old(maxfd))
      ensures ok ==> Below(pds, maxfd)
    {
      var i := 0;
      while i < |pds|
        invariant 0 <= i <= |pds| && Acceptable(pds[..i])
      {
        if !(0 <= pds[i].fd < FD_SETSIZE && pds[i].events != {} && pds[i].events <= IO_BITS) {
          return false;
        }
        i := i + 1;
      }
      assert pds[..i] == pds;
      i := 0;
      assert base + pds[..0] == base;
      while i < |pds|
        invariant 0 <= i <= |pds| && Counts(base + pds[..i]) && maxfd >= old(maxfd)
        invariant forall j :: 0 <= j < i ==> pds[j].fd <= maxfd
      {
        HoldAll(pds[i], base + pds[..i]);
        AppendsNext(base, pds, i);
        if maxfd < pds[i].fd {
          maxfd := pds[i].fd;
        }
        i := i + 1;
      }
      assert pds[..i] == pds;
      return true;
    }

    /** The three tests for one descriptor in `_st_select_pollset_add`. */
    method HoldAll(pd: PollFd, ghost base: seq<PollFd>)
      requires Counts(base) && 0 <= pd.fd < FD_SETSIZE
      modifies refCnts, this`fdSets
      ensures Counts(base + [pd])
    {
      if IN in pd.events {
        Hold(pd.fd, 0);
      }
      if OUT in pd.events {
        Hold(pd.fd, 1);
      }
      if PRI in pd.events {
        Hold(pd.fd, 2);
      }
      forall fd, k | 0 <= fd < FD_SETSIZE && 0 <= k < 3
        ensures refCnts[fd, k] == CountOn(base + [pd], fd, BitAt(k))
      {
        CountConcat(base, [pd], fd, BitAt(k));
        assert CountOn([pd], fd, BitAt(k)) == if pd.fd == fd && BitAt(k) in pd.events then 1 else 0;
      }
    }

    /** The counts of `rest` and `pds` together. */
    ghost predicate CountsSum(rest: seq<PollFd>, pds: seq<PollFd>)
      reads this, refCnts
    {
      && BitsMatch()
      && (forall fd, k :: 0 <= fd < FD_SETSIZE && 0 <= k < 3 ==>
            refCnts[fd, k] == CountOn(rest, fd, BitAt(k)) + CountOn(pds, fd, BitAt(k)))
    }

    static function Asks(pd: PollFd, fd: int, k: nat): nat
      requires k < 3
    {
      if pd.fd == fd && BitAt(k) in pd.events then 1 else 0
    }

    static lemma OneCount(pd: PollFd, fd: int, k: nat)
      requires k < 3
      ensures CountOn([pd], fd, BitAt(k)) == Asks(pd, fd, k)
    {
    }

    /** One of the tests of `_st_select_pollset_del`. */
    method DropIf(pd: PollFd, k: nat)
      requires BitsMatch() && 0 <= pd.fd < FD_SETSIZE && k < 3
      requires BitAt(k) in pd.events ==> refCnts[pd.fd, k] > 0
      modifies refCnts, this`fdSets
      ensures BitsMatch()
      ensures forall f, j :: 0 <= f < FD_SETSIZE && 0 <= j < 3 ==>
        refCnts[f, j] == old(refCnts[f, j]) - if j == k then Asks(pd, f, j) else 0
    {
      if BitAt(k) in pd.events {
        Drop(pd.fd, k);
      }
    }

    /** The three tests for one descriptor in `_st_select_pollset_del`. */
    method DropAll(pd: PollFd, ghost rest: seq<PollFd>, ghost more: seq<PollFd>)
      requires CountsSum(rest, [pd] + more) && 0 <= pd.fd < FD_SETSIZE
      modifies refCnts, this`fdSets
      ensures CountsSum(rest, more)
    {
      forall fd, k | 0 <= fd < FD_SETSIZE && 0 <= k < 3
        ensures refCnts[fd, k] == CountOn(rest, fd, BitAt(k)) + CountOn(more, fd, BitAt(k)) + Asks(pd, fd, k)
      {
        CountConcat([pd], more, fd, BitAt(k));
        OneCount(pd, fd, k);
      }
      DropIf(pd, 0);
      DropIf(pd, 1);
      DropIf(pd, 2);
    }

    /** `_st_select_pollset_del`; `rest` are the descriptors that stay. */
    method PollsetDel(pds: seq<PollFd>, ghost rest: seq<PollFd>)
      requires CountsSum(rest, pds) && Acceptable(pds)
      modifies refCnts, this`fdSets
      ensures Counts(rest)
    {
      var n := 0;
      while n < |pds|
        invariant 0 <= n <= |pds| && CountsSum(rest, pds[n..])
      {
        assert pds[n..] == [pds[n]] + pds[n + 1..];
        DropAll(pds[n], rest, pds[n + 1..]);
        n := n + 1;
      }
    }

    /** `pollset_add` followed by `_ST_ADD_IOQ`, as `st_poll` does it. */
    method Enqueue(pq: PollQ) returns (ok: bool)
      requires Valid()
      modifies refCnts, this`fdSets, this`maxfd, this`ioQ
      ensures Valid() && (ok <==> Acceptable(pq.pds))
      ensures ioQ == if ok then old(ioQ) + [pq] else old(ioQ)
    {
      ok := PollsetAdd(pq.pds, Flat(ioQ));
      if ok {
        CountAppended(ioQ, pq);
        ioQ := ioQ + [pq];
      }
    }

    /** `_ST_DEL_IOQ` followed by `pollset_del`, for an element that timed out. */
    method Withdraw(n: nat)
      requires Valid() && n < |ioQ|
      modifies refCnts, this`fdSets, this`ioQ
      ensures Valid() && ioQ == RemoveAt(old(ioQ), n)
    {
      var pq := ioQ[n];
      forall fd, bit ensures CountOn(Flat(ioQ), fd, bit) == CountOn(Flat(RemoveAt(ioQ, n)), fd, bit) + CountOn(pq.pds, fd, bit) {
        CountWithout(ioQ, n, fd, bit);
      }
      ioQ := ioQ[..n] + ioQ[n + 1..];
      PollsetDel(pq.pds, Flat(ioQ));
    }

    /** The copies of the fd_sets tell for each descriptor what is ready on it. */
    ghost predicate Sees(pds: seq<PollFd>, fired: seq<set<int>>, ready: Ready)
      requires |fired| == 3
    {
      forall i, k :: 0 <= i < |pds| && 0 <= k < 3 && BitAt(k) in pds[i].events ==>
        (pds[i].fd in fired[k] <==> BitAt(k) in ReadyOn(ready, pds[i].fd))
    }

    /** The inner loop of `_st_select_dispatch`. */
    method Scan(pds: seq<PollFd>, fired: seq<set<int>>, ghost ready: Ready)
        returns (r: seq<PollFd>, notify: bool, pqMax: int)
      requires |fired| == 3 && Sees(pds, fired, ready) && Acceptable(pds)
      ensures r == FireAll(pds, BySelect(ready)) && (notify <==> Notified(r)) && Below(pds, pqMax)
    {
      r, notify, pqMax := [], false, -1;
      var i := 0;
      while i < |pds|
        invariant 0 <= i <= |pds| && |r| == i
        invariant forall j :: 0 <= j < i ==> r[j] == Fire(pds[j], BySelect(ready)) && pds[j].fd <= pqMax
        invariant notify <==> exists j :: 0 <= j < i && r[j].revents != {}
      {
        var osfd, events, revents := pds[i].fd, pds[i].events, {};
        if IN in events && osfd in fired[0] {
          revents := revents + {IN};
        }
        if OUT in events && osfd in fired[1] {
          revents := revents + {OUT};
        }
        if PRI in events && osfd in fired[2] {
          revents := revents + {PRI};
        }
        assert BitAt(0) == IN && BitAt(1) == OUT && BitAt(2) == PRI;
        assert revents == events * ReadyOn(ready, osfd);
        r := r + [pds[i].(revents := revents)];
        if revents != {} {
          notify := true;
        }
        if osfd > pqMax {
          pqMax := osfd;
        }
        i := i + 1;
      }
    }

    /** The three results of `select`. */
    function KernelSelect(ready: Ready): (r: seq<set<int>>)
      requires |fdSets| == 3
      reads this
      ensures |r| == 3
    {
      [Selected(fdSets[0], maxfd + 1, ready, IN), Selected(fdSets[1], maxfd + 1, ready, OUT),
       Selected(fdSets[2], maxfd + 1, ready, PRI)]
    }

    /** `select` misses nothing that an element of the io queue asks for. */
    lemma KernelSees(n: nat, ready: Ready)
      requires Valid() && n < |ioQ|
      ensures Sees(ioQ[n].pds, KernelSelect(ready), ready)
    {
      var pds, fired := ioQ[n].pds, KernelSelect(ready);
      forall i, k | 0 <= i < |pds| && 0 <= k < 3 && BitAt(k) in pds[i].events
        ensures pds[i].fd in fired[k] <==> BitAt(k) in ReadyOn(ready, pds[i].fd)
      {
        CountWithout(ioQ, n, pds[i].fd, BitAt(k));
        CountIsPositive(pds, i, BitAt(k));
        assert refCnts[pds[i].fd, k] > 0;
      }
    }

    lemma SilentKernel(ready: Ready)
      requires Valid() && KernelSelect(ready) == [{}, {}, {}]
      ensures Woken(ioQ, BySelect(ready)) == [] && Kept(ioQ, BySelect(ready)) == StripQ(ioQ)
    {
      forall i, j | 0 <= i < |ioQ| && 0 <= j < |ioQ[i].pds| ensures Fire(ioQ[i].pds[j], BySelect(ready)).revents == {} {
        KernelSees(i, ready);
        var pd := ioQ[i].pds[j];
        assert Acceptable(ioQ[i].pds);
        forall b | b in pd.events ensures b !in ReadyOn(ready, pd.fd) {
          var k := if b == IN then 0 else if b == OUT then 1 else 2;
          assert BitAt(k) == b && pd.fd !in KernelSelect(ready)[k];
        }
      }
      NothingFires(ioQ, BySelect(ready));
    }

    /** One turn of the loop over the io queue: the element at `n` is taken off and
        its counts are dropped, or it stays and bounds `maxfd`. */
    method ServeOne(n: nat, fired: seq<set<int>>, ghost ready: Ready) returns (woken: seq<PollQ>)
      requires n < |ioQ| && |fired| == 3 && Counts(Flat(ioQ))
      requires Acceptable(ioQ[n].pds) && Sees(ioQ[n].pds, fired, ready)
      modifies refCnts, this`fdSets, this`maxfd, this`ioQ
      ensures Counts(Flat(ioQ)) && maxfd >= old(maxfd)
      ensures var pq := old(ioQ)[n]; var r := FireAll(pq.pds, BySelect(ready));
        if Notified(r)
        then woken == [pq.(pds := r)] && ioQ == RemoveAt(old(ioQ), n)
        else woken == [] && ioQ == old(ioQ)[n := pq.(pds := r)] && Below(r, maxfd)
    {
      var pq := ioQ[n];
      var r, notify, pqMax := Scan(pq.pds, fired, ready);
      assert Strip(r) == Strip(pq.pds);
      if notify {
        forall fd, bit ensures CountOn(Flat(ioQ), fd, bit) == CountOn(Flat(RemoveAt(ioQ, n)), fd, bit) + CountOn(r, fd, bit) {
          CountWithout(ioQ, n, fd, bit);
          CountIgnoresReports(r, pq.pds, fd, bit);
        }
        ioQ := ioQ[..n] + ioQ[n + 1..];
        PollsetDel(r, Flat(ioQ));
        woken := [pq.(pds := r)];
      } else {
        forall fd, bit ensures CountOn(Flat(ioQ[n := pq.(pds := r)]), fd, bit) == CountOn(Flat(ioQ), fd, bit) {
          CountReported(ioQ, n, pq.(pds := r), fd, bit);
        }
        ioQ := ioQ[n := pq.(pds := r)];
        if maxfd < pqMax {
          maxfd := pqMax;
        }
        woken := [];
      }
    }

    /** The elements before `n` have been served, those from `n` on have not. */
    ghost predicate Serving(n: int, fired: seq<set<int>>, ready: Ready)
      reads this, refCnts
    {
      && |fired| == 3 && 0 <= n <= |ioQ| && Counts(Flat(ioQ))
      && (forall i :: 0 <= i < |ioQ| ==> Acceptable(ioQ[i].pds))
      && (forall i :: n <= i < |ioQ| ==> Sees(ioQ[i].pds, fired, ready))
      && (forall i :: 0 <= i < n ==> Below(ioQ[i].pds, maxfd))
    }

    /** `ServeOne`, with the position of the next element to serve. */
    method ServeTurn(n: nat, fired: seq<set<int>>, ghost ready: Ready) returns (w: seq<PollQ>, n': nat)
      requires Serving(n, fired, ready) && n < |ioQ|
      modifies refCnts, this`fdSets, this`maxfd, this`ioQ
      ensures Serving(n', fired, ready) && |ioQ| - n' < old(|ioQ|) - n
      ensures n == (if w == [] then n' - 1 else n') && Turned(old(ioQ), ioQ, n', w, BySelect(ready))
    {
      ghost var q := ioQ;
      w := ServeOne(n, fired, ready);
      n' := if w == [] then n + 1 else n;
      assert Strip(FireAll(q[n].pds, BySelect(ready))) == Strip(q[n].pds);
      forall i | 0 <= i < |ioQ| ensures Acceptable(ioQ[i].pds) {
        assert Acceptable(q[if w == [] || i < n then i else i + 1].pds);
      }
      forall i | n' <= i < |ioQ| ensures Sees(ioQ[i].pds, fired, ready) {
        assert Sees(q[if w == [] then i else i + 1].pds, fired, ready);
      }
    }

    /** The loop over the io queue. */
    method Serve(fired: seq<set<int>>, ghost ready: Ready) returns (woken: seq<PollQ>)
      requires Serving(0, fired, ready)
      modifies refCnts, this`fdSets, this`maxfd, this`ioQ
      ensures Serving(|ioQ|, fired, ready)
      ensures woken == Woken(old(ioQ), BySelect(ready)) && StripQ(ioQ) == Kept(old(ioQ), BySelect(ready))
    {
      maxfd, woken := -1, [];
      var n := 0;
      assert ioQ[0..] == ioQ && StripQ(ioQ[..0]) == [];
      ghost var goal, kept := Woken(ioQ, BySelect(ready)), Kept(ioQ, BySelect(ready));
      while n < |ioQ|
        invariant Serving(n, fired, ready)
        invariant woken + Woken(ioQ[n..], BySelect(ready)) == goal
        invariant StripQ(ioQ[..n]) + Kept(ioQ[n..], BySelect(ready)) == kept
        decreases |ioQ| - n
      {
        ghost var q := ioQ;
        var w;
        w, n := ServeTurn(n, fired, ready);
        TurnedKeepsSum(q, ioQ, n, w, BySelect(ready), woken);
        woken := woken + w;
      }
      assert ioQ[..n] == ioQ && ioQ[n..] == [];
    }

    /** `_st_select_dispatch`: returns the elements whose threads become runnable,
        in order, and the timeout that was passed to `select`.  When `select` fails
        for that timeout, nobody is woken, whatever is ready. */
    method Dispatch(ready: Ready, sleepQ: seq<Entry<int>>, lastClock: int)
        returns (woken: seq<PollQ>, tv: Option<(int, int)>)
      requires Valid()
      modifies refCnts, this`fdSets, this`maxfd, this`ioQ
      ensures Valid()
      ensures tv == SelectTimeout(sleepQ, lastClock)
      ensures if Invalid(tv) then woken == [] && ioQ == old(ioQ)
        else woken == Woken(old(ioQ), BySelect(ready)) && StripQ(ioQ) == Kept(old(ioQ), BySelect(ready))
    {
      tv := SelectTimeout(sleepQ, lastClock);
      var fired := KernelSelect(ready);
      var nfd := if Invalid(tv) then -1 else |fired[0]| + |fired[1]| + |fired[2]|;
      if nfd > 0 {
        forall i | 0 <= i < |ioQ| ensures Sees(ioQ[i].pds, fired, ready) {
          KernelSees(i, ready);
        }
        woken := Serve(fired, ready);
      } else {
        woken := [];
        if nfd == 0 {
          SilentKernel(ready);
        }
      }
    }
  }
}
