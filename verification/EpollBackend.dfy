/** The epoll event system of state-threads/event.c: reference counts per
    descriptor, kept in step with the interest masks registered in the kernel. */
module EpollBackend {
  import opened PollSets
  import opened SeqFacts
  import opened HeapLayout
  import opened Timeouts

  /** `_epoll_fd_data_t`: how many requests read, write or want exceptions. */
  datatype FdData = FdData(rd: nat, wr: nat, ex: nat, revents: set<Bit>) {

    function Cnt(b: Bit): nat {
      if b == IN then rd else if b == OUT then wr else if b == PRI then ex else 0
    }

    /** `_ST_EPOLL_EVENTS`. */
    function Interest(): set<Bit> {
      (if rd > 0 then {IN} else {}) + (if wr > 0 then {OUT} else {}) + (if ex > 0 then {PRI} else {})
    }

    function Plus(events: set<Bit>): FdData {
      FdData(if IN in events then rd + 1 else rd, if OUT in events then wr + 1 else wr,
             if PRI in events then ex + 1 else ex, revents)
    }

    function Minus(events: set<Bit>): FdData
      requires (IN in events ==> rd > 0) && (OUT in events ==> wr > 0) && (PRI in events ==> ex > 0)
    {
      FdData(if IN in events then rd - 1 else rd, if OUT in events then wr - 1 else wr,
             if PRI in events then ex - 1 else ex, revents)
    }
  }

  predicate WellFormed(pd: PollFd) {
    0 <= pd.fd && pd.events != {} && pd.events <= IO_BITS
  }

  /** The up-front checks of `_st_epoll_pollset_add`. */
  predicate Acceptable(pds: seq<PollFd>) {
    forall i :: 0 <= i < |pds| ==> WellFormed(pds[i])
  }

  /** A registration of interest as the kernel holds it. */
  type Registered = map<int, set<Bit>>

  datatype Op = ADD | MOD | DEL

  /** What `epoll_wait` has to say about a registered descriptor. */
  function KernelEvents(kernel: Registered, ready: Ready, fd: int): set<Bit> {
    if fd in kernel then kernel[fd] * ReadyOn(ready, fd) + {ERR, HUP} * ReadyOn(ready, fd) else {}
  }

  /** What the first loop of a dispatch makes of it: after an error everything that is
      registered counts as fired. */
  function NotedEvents(kernel: Registered, ready: Ready, fd: int): set<Bit> {
    var e := KernelEvents(kernel, ready, fd);
    if e * {ERR, HUP} != {} && fd in kernel then e + kernel[fd] else e
  }

  /** What the table tells about a descriptor is what the event system promises. */
  lemma NotedTells(pd: PollFd, kernel: Registered, ready: Ready)
    requires pd.fd in kernel && pd.events <= kernel[pd.fd] <= IO_BITS
    ensures var noted := NotedEvents(kernel, ready, pd.fd);
      pd.events * noted * IO_BITS + noted * {ERR, HUP} == Revents(pd, ByEpoll(ready))
  {
    var r, e := ReadyOn(ready, pd.fd), KernelEvents(kernel, ready, pd.fd);
    assert e * {ERR, HUP} == {ERR, HUP} * r;
    assert pd.events * e == pd.events * r;
  }

  /** `evts` is a possible result of `epoll_wait`: descriptors that have events,
      each once, and all of them unless the array is full. */
  ghost predicate WaitResult(kernel: Registered, ready: Ready, maxevents: nat, evts: seq<(int, set<Bit>)>) {
    && |evts| <= maxevents
    && (forall i :: 0 <= i < |evts| ==> evts[i].0 in kernel && evts[i].1 == KernelEvents(kernel, ready, evts[i].0) != {})
    && (forall i, j :: 0 <= i < j < |evts| ==> evts[i].0 != evts[j].0)
    && (|evts| < maxevents ==>
          forall fd :: fd in kernel && KernelEvents(kernel, ready, fd) != {} ==> Reports(evts, fd))
  }

  ghost predicate Reports(evts: seq<(int, set<Bit>)>, fd: int) {
    exists i :: 0 <= i < |evts| && evts[i].0 == fd
  }

  lemma SomeMember<T>(s: set<T>) returns (x: T)
    requires s != {}
    ensures x in s
  {
    x :| x in s;
  }

  /** `epoll_wait` as the kernel does it: ready descriptors in any order, as many as fit. */
  method EpollWait(kernel: Registered, ready: Ready, maxevents: nat) returns (evts: seq<(int, set<Bit>)>)
    ensures WaitResult(kernel, ready, maxevents, evts)
  {
    evts := [];
    var rest := kernel.Keys;
    while rest != {} && |evts| < maxevents
      invariant rest <= kernel.Keys && |evts| <= maxevents
      invariant forall i :: 0 <= i < |evts| ==> evts[i].0 in kernel && evts[i].1 == KernelEvents(kernel, ready, evts[i].0) != {}
      invariant forall i :: 0 <= i < |evts| ==> evts[i].0 !in rest
      invariant forall i, j :: 0 <= i < j < |evts| ==> evts[i].0 != evts[j].0
      invariant forall fd :: fd in kernel && fd !in rest && KernelEvents(kernel, ready, fd) != {} ==> Reports(evts, fd)
      decreases rest
    {
      ghost var some := SomeMember(rest);
      var fd :| fd in rest;
      ghost var before := evts;
      rest := rest - {fd};
      if KernelEvents(kernel, ready, fd) != {} {
        evts := evts + [(fd, KernelEvents(kernel, ready, fd))];
        assert evts[|before|].0 == fd;
      }
      forall f | Reports(before, f) ensures Reports(evts, f) {
        var i :| 0 <= i < |before| && before[i].0 == f;
        assert evts[i].0 == f;
      }
    }
  }

  ghost function Fds(evts: seq<(int, set<Bit>)>): set<int> {
    set i | 0 <= i < |evts| :: evts[i].0
  }

  /** Distinct descriptors are as many as there are elements. */
  lemma {:induction false} FdsCount(evts: seq<(int, set<Bit>)>)
    requires forall i, j :: 0 <= i < j < |evts| ==> evts[i].0 != evts[j].0
    ensures |Fds(evts)| == |evts|
  {
    if evts != [] {
      var n := |evts| - 1;
      FdsCount(evts[..n]);
      assert Fds(evts) == Fds(evts[..n]) + {evts[n].0};
    }
  }

  /** When the array is large enough for all registrations, nothing is missed. */
  lemma WaitMissesNothing(kernel: Registered, ready: Ready, maxevents: nat, evts: seq<(int, set<Bit>)>, fd: int)
    requires WaitResult(kernel, ready, maxevents, evts) && |kernel| <= maxevents
    requires KernelEvents(kernel, ready, fd) != {}
    ensures Reports(evts, fd)
  {
    if |evts| == maxevents {
      FdsCount(evts);
      assert Fds(evts) <= kernel.Keys;
      SubsetOfSameSize(Fds(evts), kernel.Keys);
      assert fd in Fds(evts);
    }
  }

  lemma SplitHead<T>(s: seq<T>, n: nat)
    requires n < |s|
    ensures s[n..] == [s[n]] + s[n + 1..]
  {
  }

  lemma SubsetOfSameSize<T>(a: set<T>, b: set<T>)
    requires a <= b && |a| >= |b|
    ensures a == b
  {
    assert b == a + (b - a);
  }

  lemma SubsetSize<T>(a: set<T>, b: set<T>)
    requires a <= b
    ensures |a| <= |b|
  {
    assert b == a + (b - a);
  }

  class Epoll {
    var fdData: array<FdData>
    var evtlistSize: nat
    var evtlistCnt: int
    var ioQ: seq<PollQ>
    var kernel: Registered               // what epoll_ctl has registered

    /** The kernel's mask for `fd` is the interest that the counts say. */
    ghost predicate InStep(fd: int)
      reads this, fdData
    {
      if 0 <= fd < fdData.Length && fdData[fd].Interest() != {}
      then fd in kernel && kernel[fd] == fdData[fd].Interest()
      else fd !in kernel
    }

    /** In step except perhaps on `skip`; the number of registrations is known. */
    ghost predicate KernelInStep(skip: set<int>)
      reads this, fdData
    {
      && (forall fd :: fd !in skip ==> InStep(fd))
      && evtlistCnt == |kernel|
    }

    /** The counts of `rest` and `pds` together; `fired` are the descriptors with
        events to report, which are registered. */
    ghost predicate Counts(rest: seq<PollFd>, pds: seq<PollFd>, fired: set<int>)
      reads this, fdData
    {
      && (forall i :: 0 <= i < |pds| ==> WellFormed(pds[i]) && pds[i].fd < fdData.Length)
      && (forall fd, b :: 0 <= fd < fdData.Length && b in IO_BITS ==>
            fdData[fd].Cnt(b) == CountOn(rest, fd, b) + CountOn(pds, fd, b))
      && (forall fd, b :: (fd < 0 || fdData.Length <= fd) && b in IO_BITS ==> CountOn(rest, fd, b) == 0)
      && (forall fd :: 0 <= fd < fdData.Length ==> (fd in fired <==> fdData[fd].revents != {}))
      && (forall fd :: fd in fired ==> fd in kernel && 0 <= fd < fdData.Length)
    }

    /** The bookkeeping equals a recount over the io queue, and the kernel agrees. */
    ghost predicate Valid()
      reads this, fdData
    {
      && (forall i :: 0 <= i < |ioQ| ==> InTable(ioQ[i].pds))
      && Books(Flat(ioQ))
    }

    ghost predicate InTable(pds: seq<PollFd>)
      reads this
    {
      forall i :: 0 <= i < |pds| ==> WellFormed(pds[i]) && pds[i].fd < fdData.Length
    }

    constructor (fdHint: nat)
      requires fdHint >= 1
      ensures Valid() && ioQ == [] && kernel == map[] && fresh(fdData)
    {
      fdData := new FdData[fdHint](_ => FdData(0, 0, 0, {}));
      evtlistSize, evtlistCnt, ioQ, kernel := fdHint, 0, [], map[];
    }

    /** `epoll_ctl`: ADD fails on a registered descriptor or when the kernel
        refuses it, MOD and DEL fail on one that is not registered. */
    method EpollCtl(op: Op, fd: int, events: set<Bit>, refused: bool) returns (ok: bool)
      modifies this`kernel
      ensures ok <==> if op == ADD then fd !in old(kernel) && !refused else fd in old(kernel)
      ensures kernel == if !ok then old(kernel) else if op == DEL then old(kernel) - {fd} else old(kernel)[fd := events]
    {
      ok := if op == ADD then fd !in kernel && !refused else fd in kernel;
      if ok {
        kernel := if op == DEL then kernel - {fd} else kernel[fd := events];
      }
    }

    /** The events to report are those of the table `was`. */
    ghost predicate ReventsKept(was: seq<FdData>)
      reads this, fdData
    {
      |was| == fdData.Length && forall fd :: 0 <= fd < |was| ==> fdData[fd].revents == was[fd].revents
    }

    /** The three decrements of `_st_epoll_pollset_del`. */
    method Decrement(pd: PollFd, ghost rest: seq<PollFd>, ghost more: seq<PollFd>, ghost fired: set<int>)
      requires Counts(rest, [pd] + more, fired)
      modifies fdData
      ensures 0 <= pd.fd < fdData.Length && Counts(rest, more, fired)
      ensures ReventsKept(old(fdData[..]))
      ensures fdData[pd.fd].Interest() <= old(fdData[pd.fd].Interest())
      ensures forall fd :: 0 <= fd < fdData.Length && fd != pd.fd ==> fdData[fd] == old(fdData[fd])
    {
      forall fd, b | 0 <= fd < fdData.Length && b in IO_BITS
        ensures fdData[fd].Cnt(b) == CountOn(rest, fd, b) + CountOn(more, fd, b) + if pd.fd == fd && b in pd.events then 1 else 0
      {
        CountConcat([pd], more, fd, b);
        assert CountOn([pd], fd, b) == if pd.fd == fd && b in pd.events then 1 else 0;
      }
      assert ([pd] + more)[0] == pd;
      assert forall i :: 0 <= i < |more| ==> more[i] == ([pd] + more)[i + 1];
      var d := fdData[pd.fd];
      assert IN in IO_BITS && OUT in IO_BITS && PRI in IO_BITS;
      assert d.Cnt(IN) == d.rd && d.Cnt(OUT) == d.wr && d.Cnt(PRI) == d.ex;
      fdData[pd.fd] := d.Minus(pd.events);
    }

    /** The registration of `fd` is brought in step after its counts went down from
        the interest `oldEvents`, unless it has events to report. */
    method Resync(fd: int, oldEvents: set<Bit>, ghost fired: set<int>, ghost bad: set<int>)
      requires 0 <= fd < fdData.Length && KernelInStep(fired + bad + {fd})
      requires fd in fired <==> fdData[fd].revents != {}
      requires fdData[fd].Interest() <= oldEvents
      requires fd !in fired + bad ==> if oldEvents != {} then fd in kernel && kernel[fd] == oldEvents else fd !in kernel
      requires fd in bad ==> fd !in kernel && fdData[fd].Interest() == {}
      modifies this`kernel, this`evtlistCnt
      ensures KernelInStep(fired + (bad - {fd}))
      ensures kernel.Keys <= old(kernel.Keys)
      ensures forall f :: f in fired && f in old(kernel) ==> f in kernel
    {
      var events := fdData[fd].Interest();
      if events != oldEvents && fdData[fd].revents == {} {
        var op := if events != {} then MOD else DEL;
        var ok := EpollCtl(op, fd, events, false);
        if ok && op == DEL {
          evtlistCnt := evtlistCnt - 1;
        }
      }
      forall f | f !in fired + (bad - {fd}) ensures InStep(f) {
        assert f != fd ==> old(InStep(f));
      }
    }

    /** One turn of the loop of `_st_epoll_pollset_del`.  `bad` is a descriptor that
        the kernel refused to register, if there is one. */
    method DelOne(pd: PollFd, ghost rest: seq<PollFd>, ghost more: seq<PollFd>, ghost fired: set<int>, ghost bad: set<int>)
      requires Counts(rest, [pd] + more, fired) && KernelInStep(fired + bad)
      requires 0 <= pd.fd < fdData.Length && bad !! kernel.Keys
      requires pd.fd in bad ==> forall b :: b in IO_BITS ==> CountOn(rest, pd.fd, b) + CountOn(more, pd.fd, b) == 0
      modifies this`kernel, this`evtlistCnt, fdData
      ensures Counts(rest, more, fired) && KernelInStep(fired + (bad - {pd.fd}))
      ensures kernel.Keys <= old(kernel.Keys) && ReventsKept(old(fdData[..]))
    {
      var oldEvents := fdData[pd.fd].Interest();
      assert pd.fd !in fired + bad ==> InStep(pd.fd);
      Decrement(pd, rest, more, fired);
      assert pd.fd in bad ==> fdData[pd.fd].Cnt(IN) == 0 && fdData[pd.fd].Cnt(OUT) == 0 && fdData[pd.fd].Cnt(PRI) == 0;
      forall fd | fd !in fired + bad + {pd.fd} ensures InStep(fd) {
        assert old(InStep(fd));
      }
      Resync(pd.fd, oldEvents, fired, bad);
    }

    /** `_st_epoll_pollset_del` has dealt with the first `n` of `pds`; `bad` is a
        descriptor that the kernel refused to register, the last of `pds` if any. */
    ghost predicate Deleting(pds: seq<PollFd>, n: nat, rest: seq<PollFd>, fired: set<int>, bad: set<int>)
      reads this, fdData
    {
      && n <= |pds| && Counts(rest, pds[n..], fired)
      && KernelInStep(fired + (if n < |pds| then bad else {}))
      && bad !! kernel.Keys
      && (bad != {} ==> pds != [] && bad == {pds[|pds| - 1].fd} && forall i :: 0 <= i < |pds| - 1 ==> pds[i].fd !in bad)
      && (forall fd, b :: fd in bad && b in IO_BITS ==> CountOn(rest, fd, b) == 0)
    }

    method DelTurn(pds: seq<PollFd>, n: nat, ghost rest: seq<PollFd>, ghost fired: set<int>, ghost bad: set<int>)
      requires n < |pds| && Deleting(pds, n, rest, fired, bad)
      modifies this`kernel, this`evtlistCnt, fdData
      ensures Deleting(pds, n + 1, rest, fired, bad)
      ensures kernel.Keys <= old(kernel.Keys) && ReventsKept(old(fdData[..]))
    {
      SplitHead(pds, n);
      assert pds[n..][0] == pds[n];
      assert n < |pds| - 1 ==> pds[n].fd !in bad;
      assert bad - {pds[n].fd} == if n + 1 < |pds| then bad else {};
      DelOne(pds[n], rest, pds[n + 1..], fired, bad);
    }

    /** `_st_epoll_pollset_del`; `rest` are the descriptors that stay. */
    method PollsetDel(pds: seq<PollFd>, ghost rest: seq<PollFd>, ghost fired: set<int>, ghost bad: set<int>)
      requires Deleting(pds, 0, rest, fired, bad) && (pds == [] ==> bad == {})
      modifies this`kernel, this`evtlistCnt, fdData
      ensures Counts(rest, [], fired) && KernelInStep(fired)
      ensures kernel.Keys <= old(kernel.Keys) && ReventsKept(old(fdData[..]))
    {
      var n := 0;
      while n < |pds|
        invariant Deleting(pds, n, rest, fired, bad)
        invariant kernel.Keys <= old(kernel.Keys) && ReventsKept(old(fdData[..]))
      {
        DelTurn(pds, n, rest, fired, bad);
        n := n + 1;
      }
      assert pds[n..] == [];
      assert fired + {} == fired;
    }

    /** The bookkeeping for the descriptors `pds`, outside of a dispatch. */
    ghost predicate Books(pds: seq<PollFd>)
      reads this, fdData
    {
      && fdData.Length >= 1 && evtlistSize >= 1 && evtlistCnt <= evtlistSize
      && Counts(pds, [], {}) && KernelInStep({})
    }

    /** `_st_epoll_fd_data_expand`: the table is doubled until it has room for `maxfd`. */
    method ExpandFdData(maxfd: nat, ghost pds: seq<PollFd>)
      requires Books(pds) && maxfd >= fdData.Length
      modifies this`fdData
      ensures Books(pds) && fresh(fdData) && maxfd < fdData.Length && old(fdData.Length) <= fdData.Length
    {
      var n := fdData.Length;
      while maxfd >= n
        invariant n >= fdData.Length
        decreases maxfd - n
      {
        n := 2 * n;
      }
      ghost var was := fdData;
      var a := new FdData[n](i requires 0 <= i reads this, fdData =>
        if i < fdData.Length then fdData[i] else FdData(0, 0, 0, {}));
      fdData := a;
      forall fd ensures InStep(fd) {
        assert old(InStep(fd));
      }
    }

    /** The three increments of `_st_epoll_pollset_add`. */
    method Increment(pd: PollFd, ghost base: seq<PollFd>)
      requires Counts(base, [], {}) && 0 <= pd.fd < fdData.Length && WellFormed(pd)
      modifies fdData
      ensures Counts(base + [pd], [], {})
      ensures old(fdData[pd.fd].Interest()) <= fdData[pd.fd].Interest() != {}
      ensures forall fd :: 0 <= fd < fdData.Length && fd != pd.fd ==> fdData[fd] == old(fdData[fd])
    {
      var d := fdData[pd.fd];
      fdData[pd.fd] := d.Plus(pd.events);
      assert pd.events <= d.Plus(pd.events).Interest();
      forall fd, b ensures CountOn(base + [pd], fd, b) == CountOn(base, fd, b) + if pd.fd == fd && b in pd.events then 1 else 0 {
        CountConcat(base, [pd], fd, b);
        assert CountOn([pd], fd, b) == if pd.fd == fd && b in pd.events then 1 else 0;
      }
    }

    /** `_st_epoll_evtlist_expand`: doubled until it has room for all registrations. */
    method ExpandEvtlist()
      requires evtlistSize >= 1
      modifies this`evtlistSize
      ensures evtlistCnt <= evtlistSize && old(evtlistSize) <= evtlistSize
    {
      var n := evtlistSize;
      while evtlistCnt > n
        invariant n >= evtlistSize
        decreases evtlistCnt - n
      {
        n := 2 * n;
      }
      evtlistSize := n;
    }

    /** One turn of the loop of `_st_epoll_pollset_add`; it fails when the kernel
        refuses to register a new descriptor. */
    method AddOne(pd: PollFd, refused: set<int>, ghost base: seq<PollFd>) returns (ok: bool)
      requires Books(base) && WellFormed(pd) && pd.fd < fdData.Length
      modifies this`kernel, this`evtlistCnt, this`evtlistSize, fdData
      ensures ok <==> (pd.fd in refused ==> pd.fd in old(kernel))
      ensures ok ==> Books(base + [pd]) && kernel.Keys == old(kernel.Keys) + {pd.fd}
      ensures !ok ==>
        && pd.fd !in kernel && kernel == old(kernel)
        && Counts(base + [pd], [], {}) && KernelInStep({pd.fd}) && 1 <= evtlistSize && evtlistCnt <= evtlistSize
        && forall b :: b in IO_BITS ==> CountOn(base, pd.fd, b) == 0
    {
      var oldEvents := fdData[pd.fd].Interest();
      assert InStep(pd.fd);
      assert IN in IO_BITS && OUT in IO_BITS && PRI in IO_BITS;
      assert oldEvents == {} ==> fdData[pd.fd].Cnt(IN) == 0 && fdData[pd.fd].Cnt(OUT) == 0 && fdData[pd.fd].Cnt(PRI) == 0;
      Increment(pd, base);
      forall f | f != pd.fd ensures InStep(f) {
        assert old(InStep(f));
      }
      ok := Register(pd.fd, oldEvents, refused);
    }

    /** The kernel is told of the interest in `fd` after its counts went up. */
    method Register(fd: int, oldEvents: set<Bit>, refused: set<int>) returns (ok: bool)
      requires 0 <= fd < fdData.Length && KernelInStep({fd}) && 1 <= evtlistSize && evtlistCnt <= evtlistSize
      requires oldEvents <= fdData[fd].Interest() != {}
      requires if oldEvents != {} then fd in kernel && kernel[fd] == oldEvents else fd !in kernel
      modifies this`kernel, this`evtlistCnt, this`evtlistSize
      ensures 1 <= evtlistSize && evtlistCnt <= evtlistSize
      ensures ok <==> (fd in refused ==> fd in old(kernel))
      ensures ok ==> KernelInStep({}) && kernel.Keys == old(kernel.Keys) + {fd}
      ensures !ok ==> KernelInStep({fd}) && kernel == old(kernel) && fd !in kernel && oldEvents == {}
    {
      var events := fdData[fd].Interest();
      ok := true;
      if events != oldEvents {
        var op := if oldEvents != {} then MOD else ADD;
        ok := EpollCtl(op, fd, events, fd in refused);
        if ok && op == ADD {
          evtlistCnt := evtlistCnt + 1;
          if evtlistCnt > evtlistSize {
            ExpandEvtlist();
          }
        }
      }
      forall f | f != fd ensures InStep(f) {
        assert old(InStep(f));
      }
    }

    /** The registrations are exactly what a recount of the descriptors asks for. */
    lemma KernelIsRecount(pds: seq<PollFd>)
      requires Books(pds)
      ensures IsRecount(kernel, pds)
    {
      forall fd ensures (fd in kernel <==> Wanted(pds, fd) != {}) && (fd in kernel ==> kernel[fd] == Wanted(pds, fd)) {
        assert InStep(fd);
        if 0 <= fd < fdData.Length {
          var d := fdData[fd];
          forall b ensures b in d.Interest() <==> b in Wanted(pds, fd) {
            assert b in IO_BITS ==> d.Cnt(b) == CountOn(pds, fd, b);
          }
          assert d.Interest() == Wanted(pds, fd);
        } else {
          assert Wanted(pds, fd) == {};
        }
      }
    }

    /** The loop that grows the table and checks the request. */
    method CheckAll(pds: seq<PollFd>, ghost base: seq<PollFd>) returns (ok: bool)
      requires Books(base)
      modifies this`fdData
      ensures ok <==> Acceptable(pds)
      ensures Books(base) && (ok ==> InTable(pds))
      ensures fdData == old(fdData) || fresh(fdData)
      ensures old(fdData.Length) <= fdData.Length
    {
      var i := 0;
      while i < |pds|
        invariant 0 <= i <= |pds| && Books(base) && InTable(pds[..i])
        invariant fdData == old(fdData) || fresh(fdData)
        invariant old(fdData.Length) <= fdData.Length
      {
        if !(0 <= pds[i].fd && pds[i].events != {} && pds[i].events <= IO_BITS) {
          return false;
        }
        if pds[i].fd >= fdData.Length {
          ExpandFdData(pds[i].fd, base);
        }
        i := i + 1;
      }
      assert pds[..i] == pds;
      return true;
    }

    /** The kernel does not refuse what is not registered yet. */
    predicate Registrable(pds: seq<PollFd>, refused: set<int>)
      reads this`kernel
    {
      forall i :: 0 <= i < |pds| && pds[i].fd in refused ==> pds[i].fd in kernel
    }

    /** The first `i` of `pds` are added; the kernel had the registrations `was`. */
    ghost predicate Adding(pds: seq<PollFd>, i: int, refused: set<int>, base: seq<PollFd>, was: set<int>)
      reads this, fdData
    {
      && 0 <= i <= |pds| && Books(base + pds[..i])
      && kernel.Keys * refused == was * refused
      && forall j :: 0 <= j < i && pds[j].fd in refused ==> pds[j].fd in was
    }

    /** One turn of that loop, and the unrolling on failure. */
    method AddTurn(pds: seq<PollFd>, i: nat, refused: set<int>, ghost base: seq<PollFd>, ghost was: set<int>) returns (ok: bool)
      requires Adding(pds, i, refused, base, was) && i < |pds| && InTable(pds)
      modifies this`kernel, this`evtlistCnt, this`evtlistSize, fdData
      ensures ok ==> Adding(pds, i + 1, refused, base, was)
      ensures !ok ==> Books(base) && pds[i].fd in refused && pds[i].fd !in was
    {
      ghost var keys := kernel.Keys;
      assert pds[i].fd in keys * refused <==> pds[i].fd in was * refused;
      ok := AddOne(pds[i], refused, base + pds[..i]);
      AppendsNext(base, pds, i);
      if !ok {
        Unroll(pds, i, base);
      }
    }

    /** The second loop of `_st_epoll_pollset_add`. */
    method AddAll(pds: seq<PollFd>, refused: set<int>, ghost base: seq<PollFd>) returns (ok: bool)
      requires Books(base) && InTable(pds)
      modifies this`kernel, this`evtlistCnt, this`evtlistSize, fdData
      ensures Books(if ok then base + pds else base)
      ensures ok <==> old(Registrable(pds, refused))
    {
      var i := 0;
      assert base + pds[..0] == base;
      while i < |pds|
        invariant Adding(pds, i, refused, base, old(kernel).Keys)
      {
        ok := AddTurn(pds, i, refused, base, old(kernel).Keys);
        if !ok {
          return false;
        }
        i := i + 1;
      }
      assert pds[..i] == pds;
      return true;
    }

    /** `_st_epoll_pollset_del(pds, i + 1)` after the kernel refused `pds[i]`. */
    method Unroll(pds: seq<PollFd>, i: nat, ghost base: seq<PollFd>)
      requires i < |pds| && InTable(pds)
      requires Counts(base + pds[..i + 1], [], {}) && KernelInStep({pds[i].fd}) && pds[i].fd !in kernel
      requires fdData.Length >= 1 && 1 <= evtlistSize && evtlistCnt <= evtlistSize
      requires forall b :: b in IO_BITS ==> CountOn(base + pds[..i], pds[i].fd, b) == 0
      modifies this`kernel, this`evtlistCnt, fdData
      ensures Books(base)
    {
      ghost var done := pds[..i + 1];
      forall fd, b ensures CountOn(base + done, fd, b) == CountOn(base, fd, b) + CountOn(done, fd, b) {
        CountConcat(base, done, fd, b);
      }
      forall b | b in IO_BITS ensures CountOn(base, pds[i].fd, b) == 0 && CountOn(pds[..i], pds[i].fd, b) == 0 {
        CountConcat(base, pds[..i], pds[i].fd, b);
      }
      forall j | 0 <= j < i ensures pds[j].fd != pds[i].fd {
        var b :| b in pds[j].events;
        assert pds[..i][j] == pds[j];
        CountIsPositive(pds[..i], j, b);
      }
      PollsetDel(pds[..i + 1], base, {}, {pds[i].fd});
      SubsetSize(kernel.Keys, old(kernel.Keys));
    }

    /** `_st_epoll_pollset_add`: when it fails, counts, registrations and their
        number are what they were. */
    method PollsetAdd(pds: seq<PollFd>, refused: set<int>, ghost base: seq<PollFd>) returns (ok: bool)
      requires Books(base)
      modifies this`kernel, this`evtlistCnt, this`evtlistSize, this`fdData, fdData
      ensures Books(if ok then base + pds else base)
      ensures !ok ==> kernel == old(kernel) && evtlistCnt == old(evtlistCnt)
      ensures ok <==> Acceptable(pds) && old(Registrable(pds, refused))
      ensures ok ==> InTable(pds)
      ensures fdData == old(fdData) || fresh(fdData)
      ensures old(fdData.Length) <= fdData.Length
    {
      ghost var before := kernel;
      KernelIsRecount(base);
      ok := CheckAll(pds, base);
      if ok {
        ok := AddAll(pds, refused, base);
        if !ok {
          KernelIsRecount(base);
          OneRecount(before, kernel, base);
        }
      }
    }

    /** `pollset_add` followed by `_ST_ADD_IOQ`, as `st_poll` does it. */
    method Enqueue(pq: PollQ, refused: set<int>) returns (ok: bool)
      requires Valid()
      modifies this`kernel, this`evtlistCnt, this`evtlistSize, this`fdData, this`ioQ, fdData
      ensures Valid() && (ok <==> Acceptable(pq.pds) && old(Registrable(pq.pds, refused)))
      ensures ioQ == if ok then old(ioQ) + [pq] else old(ioQ)
      ensures !ok ==> kernel == old(kernel) && evtlistCnt == old(evtlistCnt)
      ensures fdData == old(fdData) || fresh(fdData)
    {
      ghost var q := ioQ;
      ok := PollsetAdd(pq.pds, refused, Flat(ioQ));
      if ok {
        CountAppended(ioQ, pq);
        ioQ := ioQ + [pq];
      }
    }

    /** `_ST_DEL_IOQ` followed by `pollset_del`, for an element that timed out. */
    method Withdraw(n: nat)
      requires Valid() && n < |ioQ|
      modifies this`kernel, this`evtlistCnt, this`ioQ, fdData
      ensures Valid() && ioQ == RemoveAt(old(ioQ), n)
    {
      var pq := ioQ[n];
      Part(ioQ, n, pq.pds, {});
      ioQ := ioQ[..n] + ioQ[n + 1..];
      assert KernelInStep({} + {});
      PollsetDel(pq.pds, Flat(ioQ), {}, {});
      SubsetSize(kernel.Keys, old(kernel.Keys));
    }

    /** The count over the io queue, as the count of one element and of the rest. */
    lemma Part(q: seq<PollQ>, n: nat, pds: seq<PollFd>, fired: set<int>)
      requires n < |q| && Counts(Flat(q), [], fired) && InTable(q[n].pds) && Strip(pds) == Strip(q[n].pds)
      ensures Counts(Flat(RemoveAt(q, n)), pds, fired)
    {
      forall fd, b ensures CountOn(Flat(q), fd, b) == CountOn(Flat(RemoveAt(q, n)), fd, b) + CountOn(pds, fd, b) {
        CountWithout(q, n, fd, b);
        CountIgnoresReports(pds, q[n].pds, fd, b);
      }
      InTableIgnoresReports(pds, q[n].pds);
    }

    lemma InTableIgnoresReports(a: seq<PollFd>, b: seq<PollFd>)
      requires InTable(b) && Strip(a) == Strip(b)
      ensures InTable(a)
    {
      assert |a| == |Strip(a)| && |b| == |Strip(b)|;
      assert forall i :: 0 <= i < |a| ==> Strip(a)[i] == Strip(b)[i];
    }

    // ---------------------------------------------------------------- dispatch

    /** One turn of the first loop of `_st_epoll_dispatch`. */
    method MarkOne(osfd: int, events: set<Bit>)
      requires 0 <= osfd < fdData.Length
      modifies fdData
      ensures fdData[osfd] == old(fdData[osfd]).(revents :=
        events + if events * {ERR, HUP} != {} then old(fdData[osfd].Interest()) else {})
      ensures forall fd :: 0 <= fd < fdData.Length && fd != osfd ==> fdData[fd] == old(fdData[fd])
    {
      fdData[osfd] := fdData[osfd].(revents := events);
      if fdData[osfd].revents * {ERR, HUP} != {} {
        fdData[osfd] := fdData[osfd].(revents := fdData[osfd].revents + fdData[osfd].Interest());
      }
    }

    /** The first loop of `_st_epoll_dispatch`: what `epoll_wait` reported is noted
        in the table. */
    method Mark(ready: Ready, evts: seq<(int, set<Bit>)>)
      requires WaitResult(kernel, ready, evtlistSize, evts)
      requires forall fd :: fd in kernel ==> 0 <= fd < fdData.Length && kernel[fd] == fdData[fd].Interest()
      requires forall fd :: 0 <= fd < fdData.Length ==> fdData[fd].revents == {}
      modifies fdData
      ensures forall fd :: 0 <= fd < fdData.Length ==>
        fdData[fd] == old(fdData[fd]).(revents := if Reports(evts, fd) then NotedEvents(kernel, ready, fd) else {})
      ensures forall fd, b :: 0 <= fd < fdData.Length ==> fdData[fd].Cnt(b) == old(fdData[fd].Cnt(b))
    {
      var i := 0;
      while i < |evts|
        invariant 0 <= i <= |evts|
        invariant forall fd :: 0 <= fd < fdData.Length ==>
          fdData[fd] == old(fdData[fd]).(revents := if Reports(evts[..i], fd) then NotedEvents(kernel, ready, fd) else {})
      {
        MarkOne(evts[i].0, evts[i].1);
        ReportsOneMore(evts, i);
        i := i + 1;
      }
      assert evts[..i] == evts;
    }

    static lemma ReportsOneMore(evts: seq<(int, set<Bit>)>, i: nat)
      requires i < |evts|
      ensures forall fd :: Reports(evts[..i + 1], fd) <==> Reports(evts[..i], fd) || fd == evts[i].0
    {
      forall fd ensures Reports(evts[..i + 1], fd) <==> Reports(evts[..i], fd) || fd == evts[i].0 {
        if fd == evts[i].0 {
          assert evts[..i + 1][i].0 == fd;
        }
        if Reports(evts[..i], fd) {
          var j :| 0 <= j < i && evts[..i][j].0 == fd;
          assert evts[..i + 1][j].0 == fd;
        }
      }
    }

    /** Registrations stay in step while counts and registrations stay the same. */
    twostate lemma InterestKept(skip: set<int>)
      requires old(KernelInStep(skip)) && kernel == old(kernel) && evtlistCnt == old(evtlistCnt) && fdData == old(fdData)
      requires forall fd, b :: 0 <= fd < fdData.Length ==> fdData[fd].Cnt(b) == old(fdData[fd].Cnt(b))
      ensures KernelInStep(skip)
    {
      forall fd | fd !in skip ensures InStep(fd) {
        assert old(InStep(fd));
        if 0 <= fd < fdData.Length {
          var d, was := fdData[fd], old(fdData[fd]);
          assert d.Cnt(IN) == was.Cnt(IN) && d.Cnt(OUT) == was.Cnt(OUT) && d.Cnt(PRI) == was.Cnt(PRI);
          assert d.Interest() == was.Interest();
        }
      }
    }

    /** The table after the first loop: exactly the registered descriptors with
        events have them noted. */
    method MarkAll(ready: Ready, evts: seq<(int, set<Bit>)>, ghost pds: seq<PollFd>)
      requires Books(pds) && WaitResult(kernel, ready, evtlistSize, evts)
      modifies fdData
      ensures Counts(pds, [], Fds(evts)) && KernelInStep({})
      ensures forall fd :: fd in kernel ==> 0 <= fd < fdData.Length && fdData[fd].revents == NotedEvents(kernel, ready, fd)
    {
      forall fd | fd in kernel ensures 0 <= fd < fdData.Length && kernel[fd] == fdData[fd].Interest() {
        assert InStep(fd);
      }
      MarkedAll(ready, evts);
      Mark(ready, evts);
      InterestKept({});
      assert forall fd, b :: CountOn([], fd, b) == 0;
      assert forall fd :: 0 <= fd < fdData.Length ==> (fd in Fds(evts) <==> fdData[fd].revents != {});
    }

    lemma MarkedAll(ready: Ready, evts: seq<(int, set<Bit>)>)
      requires WaitResult(kernel, ready, evtlistSize, evts) && |kernel| <= evtlistSize
      ensures forall fd :: Reports(evts, fd) <==> fd in Fds(evts)
      ensures forall fd :: (fd in Fds(evts) <==> KernelEvents(kernel, ready, fd) != {})
    {
      forall fd ensures fd in Fds(evts) <==> KernelEvents(kernel, ready, fd) != {} {
        if KernelEvents(kernel, ready, fd) != {} {
          WaitMissesNothing(kernel, ready, evtlistSize, evts, fd);
        }
      }
    }

    /** The table tells for each descriptor what is ready of what it asks for. */
    ghost predicate Sees(pds: seq<PollFd>, ready: Ready)
      reads this, fdData
    {
      InTable(pds) &&
      forall i :: 0 <= i < |pds| ==>
        var noted := fdData[pds[i].fd].revents;
        pds[i].events * noted * IO_BITS + noted * {ERR, HUP} == Revents(pds[i], ByEpoll(ready))
    }

    /** The inner loop over the descriptors of one element. */
    method Scan(pds: seq<PollFd>, ghost ready: Ready) returns (r: seq<PollFd>, notify: bool)
      requires Sees(pds, ready)
      ensures r == FireAll(pds, ByEpoll(ready)) && (notify <==> Notified(r))
    {
      r, notify := [], false;
      var i := 0;
      while i < |pds|
        invariant 0 <= i <= |pds| && |r| == i
        invariant forall j :: 0 <= j < i ==> r[j] == Fire(pds[j], ByEpoll(ready))
        invariant notify <==> exists j :: 0 <= j < i && r[j].revents != {}
      {
        var revents := Report(pds[i].events, fdData[pds[i].fd].revents);
        r := r + [pds[i].(revents := revents)];
        if revents != {} {
          notify := true;
        }
        i := i + 1;
      }
    }

    /** What the loop reports on a descriptor that asks for `events`. */
    static method Report(events: set<Bit>, noted: set<Bit>) returns (revents: set<Bit>)
      ensures revents == events * noted * IO_BITS + noted * {ERR, HUP}
    {
      revents := {};
      if noted != {} {
        if IN in events && IN in noted {
          revents := revents + {IN};
        }
        if OUT in events && OUT in noted {
          revents := revents + {OUT};
        }
        if PRI in events && PRI in noted {
          revents := revents + {PRI};
        }
        if ERR in noted {
          revents := revents + {ERR};
        }
        if HUP in noted {
          revents := revents + {HUP};
        }
      }
    }

    /** The elements before `n` have been served, those from `n` on have not. */
    ghost predicate Serving(n: int, fired: set<int>, ready: Ready)
      reads this, fdData
    {
      && 0 <= n <= |ioQ| && Counts(Flat(ioQ), [], fired) && KernelInStep(fired)
      && (forall i :: 0 <= i < |ioQ| ==> InTable(ioQ[i].pds))
      && (forall i :: n <= i < |ioQ| ==> Sees(ioQ[i].pds, ready))
    }

    /** An element with something to report leaves the io queue. */
    method ServeNotified(n: nat, r: seq<PollFd>, ghost fired: set<int>)
      requires n < |ioQ| && Counts(Flat(ioQ), [], fired) && KernelInStep(fired)
      requires InTable(ioQ[n].pds) && Strip(r) == Strip(ioQ[n].pds)
      modifies this`kernel, this`evtlistCnt, this`ioQ, fdData
      ensures ioQ == RemoveAt(old(ioQ), n)
      ensures Counts(Flat(ioQ), [], fired) && KernelInStep(fired)
      ensures kernel.Keys <= old(kernel.Keys) && ReventsKept(old(fdData[..]))
    {
      ghost var q := RemoveAt(ioQ, n);
      Part(ioQ, n, r, fired);
      assert fired + {} == fired;
      PollsetDel(r, Flat(q), fired, {});
      ioQ := ioQ[..n] + ioQ[n + 1..];
      assert ioQ == q;
    }

    /** An element with nothing to report stays, with its reports cleared. */
    method ServeKept(n: nat, r: seq<PollFd>, ghost fired: set<int>)
      requires n < |ioQ| && Counts(Flat(ioQ), [], fired) && KernelInStep(fired)
      requires Strip(r) == Strip(ioQ[n].pds)
      modifies this`ioQ
      ensures ioQ == old(ioQ)[n := old(ioQ)[n].(pds := r)]
      ensures Counts(Flat(ioQ), [], fired) && KernelInStep(fired)
    {
      ghost var before := Flat(ioQ);
      var pq := ioQ[n].(pds := r);
      forall fd, b ensures CountOn(Flat(ioQ[n := pq]), fd, b) == CountOn(before, fd, b) {
        CountReported(ioQ, n, pq, fd, b);
      }
      ioQ := ioQ[n := pq];
      forall fd ensures InStep(fd) == old(InStep(fd)) {
      }
      forall fd, b | (fd < 0 || fdData.Length <= fd) && b in IO_BITS ensures CountOn(Flat(ioQ), fd, b) == 0 {
        assert CountOn(before, fd, b) == 0;
      }
    }

    /** One turn of the loop over the io queue. */
    method ServeTurn(n: nat, ghost fired: set<int>, ghost ready: Ready) returns (w: seq<PollQ>, n': nat)
      requires Serving(n, fired, ready) && n < |ioQ|
      modifies this`kernel, this`evtlistCnt, this`ioQ, fdData
      ensures Serving(n', fired, ready) && |ioQ| - n' < old(|ioQ|) - n
      ensures n == (if w == [] then n' - 1 else n') && Turned(old(ioQ), ioQ, n', w, ByEpoll(ready))
      ensures kernel.Keys <= old(kernel.Keys)
    {
      ghost var q := ioQ;
      var pq := ioQ[n];
      var r, notify := Scan(pq.pds, ready);
      assert Strip(r) == Strip(pq.pds);
      if notify {
        w, n' := [pq.(pds := r)], n;
        ServeNotified(n, r, fired);
      } else {
        w, n' := [], n + 1;
        ServeKept(n, r, fired);
      }
      forall i | 0 <= i < |ioQ| ensures InTable(ioQ[i].pds) {
        assert old(InTable(q[if w == [] || i < n then i else i + 1].pds));
      }
      forall i | n' <= i < |ioQ| ensures Sees(ioQ[i].pds, ready) {
        assert old(Sees(q[if w == [] then i else i + 1].pds, ready));
      }
    }

    /** The loop over the io queue. */
    method Serve(ghost fired: set<int>, ghost ready: Ready) returns (woken: seq<PollQ>)
      requires Serving(0, fired, ready)
      modifies this`kernel, this`evtlistCnt, this`ioQ, fdData
      ensures Serving(|ioQ|, fired, ready) && kernel.Keys <= old(kernel.Keys)
      ensures woken == Woken(old(ioQ), ByEpoll(ready)) && StripQ(ioQ) == Kept(old(ioQ), ByEpoll(ready))
    {
      woken := [];
      var n := 0;
      assert ioQ[0..] == ioQ && StripQ(ioQ[..0]) == [];
      ghost var goal, kept := Woken(ioQ, ByEpoll(ready)), Kept(ioQ, ByEpoll(ready));
      while n < |ioQ|
        invariant Serving(n, fired, ready) && kernel.Keys <= old(kernel.Keys)
        invariant woken + Woken(ioQ[n..], ByEpoll(ready)) == goal
        invariant StripQ(ioQ[..n]) + Kept(ioQ[n..], ByEpoll(ready)) == kept
        decreases |ioQ| - n
      {
        ghost var q := ioQ;
        var w;
        w, n := ServeTurn(n, fired, ready);
        TurnedKeepsSum(q, ioQ, n, w, ByEpoll(ready), woken);
        woken := woken + w;
      }
      assert ioQ[..n] == ioQ && ioQ[n..] == [];
    }

    /** One turn of the last loop: a descriptor that fired is registered anew for
        the interest that is left, or deleted. */
    method ClearOne(osfd: int, ghost pds: seq<PollFd>, ghost fired: set<int>)
      requires Counts(pds, [], fired) && KernelInStep(fired) && osfd in fired
      modifies this`kernel, this`evtlistCnt, fdData
      ensures Counts(pds, [], fired - {osfd}) && KernelInStep(fired - {osfd})
      ensures kernel.Keys <= old(kernel.Keys)
    {
      fdData[osfd] := fdData[osfd].(revents := {});
      forall fd | fd !in fired ensures InStep(fd) {
        assert old(InStep(fd));
      }
      assert forall fd, b :: 0 <= fd < fdData.Length ==> fdData[fd].Cnt(b) == old(fdData[fd].Cnt(b));
      var events := fdData[osfd].Interest();
      var op := if events != {} then MOD else DEL;
      var ok := EpollCtl(op, osfd, events, false);
      if ok && op == DEL {
        evtlistCnt := evtlistCnt - 1;
      }
      forall fd | fd !in fired - {osfd} ensures InStep(fd) {
        assert fd != osfd ==> old(InStep(fd));
      }
    }

    /** The last loop of `_st_epoll_dispatch`. */
    method Clear(evts: seq<(int, set<Bit>)>, ghost pds: seq<PollFd>)
      requires Counts(pds, [], Fds(evts)) && KernelInStep(Fds(evts))
      requires forall i, j :: 0 <= i < j < |evts| ==> evts[i].0 != evts[j].0
      modifies this`kernel, this`evtlistCnt, fdData
      ensures Counts(pds, [], {}) && KernelInStep({})
      ensures kernel.Keys <= old(kernel.Keys)
    {
      var i := 0;
      assert evts[0..] == evts;
      while i < |evts|
        invariant 0 <= i <= |evts|
        invariant Counts(pds, [], Fds(evts[i..])) && KernelInStep(Fds(evts[i..]))
        invariant kernel.Keys <= old(kernel.Keys)
      {
        FdsTail(evts, i);
        ClearOne(evts[i].0, pds, Fds(evts[i..]));
        i := i + 1;
      }
      assert Fds(evts[i..]) == {};
    }

    static lemma FdsTail(evts: seq<(int, set<Bit>)>, i: nat)
      requires i < |evts|
      requires forall j, k :: 0 <= j < k < |evts| ==> evts[j].0 != evts[k].0
      ensures evts[i].0 in Fds(evts[i..])
      ensures Fds(evts[i + 1..]) == Fds(evts[i..]) - {evts[i].0}
    {
      assert evts[i..][0] == evts[i];
      forall fd ensures fd in Fds(evts[i + 1..]) <==> fd in Fds(evts[i..]) && fd != evts[i].0 {
        if fd in Fds(evts[i + 1..]) {
          var j :| 0 <= j < |evts| - i - 1 && evts[i + 1..][j].0 == fd;
          assert evts[i..][j + 1].0 == fd;
        }
        if fd in Fds(evts[i..]) && fd != evts[i].0 {
          var j :| 0 <= j < |evts| - i && evts[i..][j].0 == fd;
          assert evts[i + 1..][j - 1].0 == fd;
        }
      }
    }

    /** Whatever `epoll_wait` noted, the table tells each element what is ready. */
    lemma NotedAll(n: nat, ready: Ready)
      requires n < |ioQ| && InTable(ioQ[n].pds)
      requires exists fired :: Counts(Flat(ioQ), [], fired)
      requires KernelInStep({})
      requires forall fd :: fd in kernel ==> 0 <= fd < fdData.Length && fdData[fd].revents == NotedEvents(kernel, ready, fd)
      ensures Sees(ioQ[n].pds, ready)
    {
      var pds := ioQ[n].pds;
      forall i | 0 <= i < |pds|
        ensures var noted := fdData[pds[i].fd].revents;
          pds[i].events * noted * IO_BITS + noted * {ERR, HUP} == Revents(pds[i], ByEpoll(ready))
      {
        var fd := pds[i].fd;
        forall b | b in pds[i].events ensures fdData[fd].Cnt(b) > 0 {
          CountWithout(ioQ, n, fd, b);
          CountIsPositive(pds, i, b);
        }
        assert pds[i].events <= fdData[fd].Interest();
        assert InStep(fd);
        NotedTells(pds[i], kernel, ready);
      }
    }

    /** What `epoll_wait` returned is noted; every element then finds in the table
        what is ready of what it asks for. */
    method Note(ready: Ready, evts: seq<(int, set<Bit>)>)
      requires Valid() && WaitResult(kernel, ready, evtlistSize, evts)
      modifies fdData
      ensures Serving(0, Fds(evts), ready)
    {
      MarkAll(ready, evts, Flat(ioQ));
      forall i | 0 <= i < |ioQ| ensures Sees(ioQ[i].pds, ready) {
        NotedAll(i, ready);
      }
    }

    /** The second and the third loop. */
    method ServeAndClear(ghost ready: Ready, evts: seq<(int, set<Bit>)>) returns (woken: seq<PollQ>)
      requires Serving(0, Fds(evts), ready) && fdData.Length >= 1 && evtlistSize >= 1 && |kernel| <= evtlistSize
      requires forall i, j :: 0 <= i < j < |evts| ==> evts[i].0 != evts[j].0
      modifies this`kernel, this`evtlistCnt, this`ioQ, fdData
      ensures Valid() && woken == Woken(old(ioQ), ByEpoll(ready)) && StripQ(ioQ) == Kept(old(ioQ), ByEpoll(ready))
    {
      woken := Serve(Fds(evts), ready);
      Clear(evts, Flat(ioQ));
      SubsetSize(kernel.Keys, old(kernel.Keys));
    }

    /** `_st_epoll_dispatch`; `evts` is what `epoll_wait` returned. */
    method Dispatch(ready: Ready, evts: seq<(int, set<Bit>)>, sleepQ: seq<Entry<int>>, lastClock: int)
        returns (woken: seq<PollQ>, timeout: int)
      requires Valid() && WaitResult(kernel, ready, evtlistSize, evts)
      modifies this`kernel, this`evtlistCnt, this`ioQ, fdData
      ensures Valid()
      ensures woken == Woken(old(ioQ), ByEpoll(ready)) && StripQ(ioQ) == Kept(old(ioQ), ByEpoll(ready))
      ensures timeout == PollTimeout(sleepQ, lastClock)
    {
      timeout := PollTimeout(sleepQ, lastClock);
      Note(ready, evts);
      if |evts| > 0 {
        woken := ServeAndClear(ready, evts);
      } else {
        woken := [];
        NothingNoted(ready);
      }
    }

    /** When `epoll_wait` times out, no element had anything to be woken for. */
    lemma NothingNoted(ready: Ready)
      requires Counts(Flat(ioQ), [], {})
      requires forall i :: 0 <= i < |ioQ| ==> Sees(ioQ[i].pds, ready)
      ensures Woken(ioQ, ByEpoll(ready)) == [] && Kept(ioQ, ByEpoll(ready)) == StripQ(ioQ)
    {
      forall i, j | 0 <= i < |ioQ| && 0 <= j < |ioQ[i].pds| ensures Fire(ioQ[i].pds[j], ByEpoll(ready)).revents == {} {
        assert Sees(ioQ[i].pds, ready);
        assert fdData[ioQ[i].pds[j].fd].revents == {};
      }
      NothingFires(ioQ, ByEpoll(ready));
    }
  }

  /** The bits that some descriptor of `pds` asks for on `fd`. */
  function Wanted(pds: seq<PollFd>, fd: int): set<Bit> {
    set b | b in IO_BITS && CountOn(pds, fd, b) > 0
  }

  /** Registered is what `pds` ask for, and nothing else. */
  ghost predicate IsRecount(kernel: Registered, pds: seq<PollFd>) {
    forall fd :: (fd in kernel <==> Wanted(pds, fd) != {}) && (fd in kernel ==> kernel[fd] == Wanted(pds, fd))
  }

  lemma OneRecount(a: Registered, b: Registered, pds: seq<PollFd>)
    requires IsRecount(a, pds) && IsRecount(b, pds)
    ensures a == b
  {
    forall fd ensures (fd in a <==> fd in b) && (fd in a ==> a[fd] == b[fd]) {
      assert fd in a <==> Wanted(pds, fd) != {};
    }
    assert a.Keys == b.Keys;
  }
}
