/** When select, poll and epoll are interchangeable: fed with the same pollsets and the
    same readiness without errors, poll and epoll wake the same elements in the same
    order with the same reports, and leave the same io queue, turn after turn, and so
    does select, unless the kernel rejects its timeout.  Poll and epoll also agree on
    errors, but for what they report on the descriptor. */
module BackendAgreement {
  import opened HeapLayout
  import opened PollSets
  import opened SeqFacts
  import opened Timeouts
  import S = SelectBackend
  import P = PollBackend
  import E = EpollBackend

  /** The three io queues hold the same requests. */
  ghost predicate SameQueues(s: S.Select, p: P.Poll, e: E.Epoll)
    reads s, p, e
  {
    StripQ(s.ioQ) == StripQ(p.ioQ) == StripQ(e.ioQ)
  }

  /** What select accepts, poll and epoll accept too, and all three add it. */
  method EnqueueAll(s: S.Select, p: P.Poll, e: E.Epoll, pq: PollQ) returns (ok: bool)
    requires s.Valid() && p.Valid() && e.Valid() && SameQueues(s, p, e)
    requires S.Acceptable(pq.pds)
    modifies s, s.refCnts, p, e, e.fdData
    ensures s.Valid() && p.Valid() && e.Valid() && SameQueues(s, p, e)
    ensures s.ioQ == old(s.ioQ) + [pq] && ok
  {
    ok := s.Enqueue(pq);
    ok := p.Enqueue(pq);
    ok := e.Enqueue(pq, {});
    StripTail(old(s.ioQ), pq);
    StripTail(old(p.ioQ), pq);
    StripTail(old(e.ioQ), pq);
  }

  /** A poll that timed out is taken off all three. */
  method WithdrawAll(s: S.Select, p: P.Poll, e: E.Epoll, n: nat)
    requires s.Valid() && p.Valid() && e.Valid() && SameQueues(s, p, e) && n < |s.ioQ|
    modifies s, s.refCnts, p, e, e.fdData
    ensures s.Valid() && p.Valid() && e.Valid() && SameQueues(s, p, e)
    ensures s.ioQ == RemoveAt(old(s.ioQ), n)
  {
    assert |s.ioQ| == |StripQ(s.ioQ)| && |p.ioQ| == |StripQ(p.ioQ)| && |e.ioQ| == |StripQ(e.ioQ)|;
    StripRemoved(s.ioQ, n);
    StripRemoved(p.ioQ, n);
    StripRemoved(e.ioQ, n);
    s.Withdraw(n);
    p.Withdraw(n);
    e.Withdraw(n);
  }

  /** No descriptor is reported as closed. */
  ghost predicate NobodyCloses(ready: Ready) {
    forall fd :: NVAL !in ReadyOn(ready, fd)
  }

  /** Where two answers report the same on every descriptor, the dispatches agree. */
  lemma {:induction false} SameReports(q: seq<PollQ>, a: Answer, b: Answer)
    requires forall pd :: Revents(pd, a) == Revents(pd, b)
    ensures Woken(q, a) == Woken(q, b) && Kept(q, a) == Kept(q, b)
  {
    if q != [] {
      assert FireAll(q[0].pds, a) == FireAll(q[0].pds, b);
      SameReports(q[1..], a, b);
    }
  }

  /** Without errors the three event systems report the same. */
  lemma ErrorFreeAgree(q: seq<PollQ>, ready: Ready)
    requires ErrorFree(ready)
    ensures Woken(q, BySelect(ready)) == Woken(q, ByPoll(ready)) == Woken(q, ByEpoll(ready))
    ensures Kept(q, BySelect(ready)) == Kept(q, ByPoll(ready)) == Kept(q, ByEpoll(ready))
  {
    forall pd ensures Revents(pd, BySelect(ready)) == Revents(pd, ByPoll(ready)) == Revents(pd, ByEpoll(ready)) {
      assert {ERR, HUP, NVAL} * ReadyOn(ready, pd.fd) == {} == {ERR, HUP} * ReadyOn(ready, pd.fd);
    }
    SameReports(q, BySelect(ready), ByPoll(ready));
    SameReports(q, ByPoll(ready), ByEpoll(ready));
  }

  /** What epoll reports, given what poll reports: the same, and after an error or a
      hang-up all that was asked for. */
  function EpollOf(pd: PollFd, ready: Ready): PollFd {
    pd.(revents := pd.revents + if {ERR, HUP} * ReadyOn(ready, pd.fd) != {} then pd.events else {})
  }

  function EpollOfElement(pq: PollQ, ready: Ready): (r: PollQ)
    ensures r.thread == pq.thread && |r.pds| == |pq.pds|
    ensures forall j :: 0 <= j < |pq.pds| ==> r.pds[j] == EpollOf(pq.pds[j], ready)
  {
    pq.(pds := seq(|pq.pds|, j requires 0 <= j < |pq.pds| => EpollOf(pq.pds[j], ready)))
  }

  function EpollOfAll(w: seq<PollQ>, ready: Ready): (r: seq<PollQ>)
    ensures |r| == |w| && forall i :: 0 <= i < |w| ==> r[i] == EpollOfElement(w[i], ready)
  {
    if w == [] then [] else [EpollOfElement(w[0], ready)] + EpollOfAll(w[1..], ready)
  }

  lemma EpollFires(pds: seq<PollFd>, ready: Ready)
    requires NobodyCloses(ready)
    ensures forall j :: 0 <= j < |pds| ==> Fire(pds[j], ByEpoll(ready)) == EpollOf(Fire(pds[j], ByPoll(ready)), ready)
    ensures Notified(FireAll(pds, ByPoll(ready))) <==> Notified(FireAll(pds, ByEpoll(ready)))
  {
    var p, e := FireAll(pds, ByPoll(ready)), FireAll(pds, ByEpoll(ready));
    forall j | 0 <= j < |pds| ensures e[j] == EpollOf(p[j], ready) && (p[j].revents == {} <==> e[j].revents == {}) {
      var r := ReadyOn(ready, pds[j].fd);
      assert {ERR, HUP, NVAL} * r == {ERR, HUP} * r;
    }
    assert Notified(p) ==> exists j :: 0 <= j < |pds| && p[j].revents != {} && e[j].revents != {};
    assert Notified(e) ==> exists j :: 0 <= j < |pds| && e[j].revents != {} && p[j].revents != {};
  }

  /** Errors and hang-ups included, poll and epoll wake the same elements in the same
      order and leave the same io queue. */
  lemma {:induction false} PollAndEpollAgree(q: seq<PollQ>, ready: Ready)
    requires NobodyCloses(ready)
    ensures Woken(q, ByEpoll(ready)) == EpollOfAll(Woken(q, ByPoll(ready)), ready)
    ensures Kept(q, ByEpoll(ready)) == Kept(q, ByPoll(ready))
  {
    if q != [] {
      PollAndEpollAgree(q[1..], ready);
      EpollFires(q[0].pds, ready);
      var pq := q[0].(pds := FireAll(q[0].pds, ByPoll(ready)));
      assert EpollOfElement(pq, ready).pds == FireAll(q[0].pds, ByEpoll(ready));
      var w := Woken(q[1..], ByPoll(ready));
      assert ([pq] + w)[1..] == w;
    }
  }

  /** The kernel takes the timeout that a select dispatch asks for. */
  predicate SelectCanWait(sleepQ: seq<Entry<int>>, lastClock: int) {
    sleepQ == [] || MinTimeout(sleepQ, lastClock) / 1000000 % INT_SPAN < INT_SPAN / 2
  }

  /** A single sleeper that is due in 2^31 seconds keeps select from waking anybody:
      for the pollset below poll wakes a thread and select wakes none. */
  lemma LongSleeperStopsSelect(sleeper: int, poller: int)
    ensures !SelectCanWait([Entry(sleeper, 2147483648000000)], 0)
    ensures S.Acceptable([PollFd(3, {IN}, {})])
    ensures Woken([PollQ(poller, [PollFd(3, {IN}, {})])], ByPoll(map[3 := {IN}])) == [PollQ(poller, [PollFd(3, {IN}, {IN})])]
  {
    var h := [Entry(sleeper, 2147483648000000)];
    assert At(h, 1).due == 2147483648000000;
    var q, answer := [PollQ(poller, [PollFd(3, {IN}, {})])], ByPoll(map[3 := {IN}]);
    var pds := FireAll(q[0].pds, answer);
    var r: set<Bit> := {IN};
    assert r * r + {ERR, HUP, NVAL} * r == r;
    assert IN in pds[0].revents && pds == [PollFd(3, {IN}, {IN})];
    assert Woken(q[1..], answer) == [];
  }

  /** All three dispatch on the same readiness, which has no errors; `evts` is what
      `epoll_wait` returns.  Poll and epoll always agree.  Select agrees with them
      exactly when the kernel takes its timeout or there was nobody to wake. */
  method DispatchAll(s: S.Select, p: P.Poll, e: E.Epoll, ready: Ready, evts: seq<(int, set<Bit>)>,
                     sleepQ: seq<Entry<int>>, lastClock: int)
    returns (bySelect: seq<PollQ>, byPoll: seq<PollQ>, byEpoll: seq<PollQ>)
    requires s.Valid() && p.Valid() && e.Valid() && SameQueues(s, p, e)
    requires ErrorFree(ready) && E.WaitResult(e.kernel, ready, e.evtlistSize, evts)
    modifies s, s.refCnts, p, p.pollfds, e, e.fdData
    ensures s.Valid() && p.Valid() && e.Valid()
    ensures byPoll == byEpoll == Woken(old(s.ioQ), BySelect(ready))
    ensures StripQ(p.ioQ) == StripQ(e.ioQ) == Kept(old(s.ioQ), BySelect(ready))
    ensures bySelect == byPoll && SameQueues(s, p, e) <==> SelectCanWait(sleepQ, lastClock) || byPoll == []
    ensures !SelectCanWait(sleepQ, lastClock) ==> bySelect == [] && s.ioQ == old(s.ioQ)
  {
    SelectFailsIff(sleepQ, lastClock);
    ErrorFreeAgree(s.ioQ, ready);
    DispatchIgnoresReports(s.ioQ, p.ioQ, ByPoll(ready));
    DispatchIgnoresReports(s.ioQ, e.ioQ, ByEpoll(ready));
    var tv, timeout;
    bySelect, tv := s.Dispatch(ready, sleepQ, lastClock);
    byPoll, timeout := p.Dispatch(ready, sleepQ, lastClock);
    byEpoll, timeout := e.Dispatch(ready, evts, sleepQ, lastClock);
    if byPoll == [] {
      NobodyWoken(old(s.ioQ), BySelect(ready));
    }
  }

  /** Poll and epoll dispatch on the same readiness, whatever errors it has. */
  method DispatchBoth(p: P.Poll, e: E.Epoll, ready: Ready, evts: seq<(int, set<Bit>)>,
                      sleepQ: seq<Entry<int>>, lastClock: int)
    returns (byPoll: seq<PollQ>, byEpoll: seq<PollQ>)
    requires p.Valid() && e.Valid() && StripQ(p.ioQ) == StripQ(e.ioQ)
    requires NobodyCloses(ready) && E.WaitResult(e.kernel, ready, e.evtlistSize, evts)
    modifies p, p.pollfds, e, e.fdData
    ensures p.Valid() && e.Valid() && StripQ(p.ioQ) == StripQ(e.ioQ)
    ensures byPoll == Woken(old(p.ioQ), ByPoll(ready)) && byEpoll == EpollOfAll(byPoll, ready)
  {
    PollAndEpollAgree(p.ioQ, ready);
    DispatchIgnoresReports(p.ioQ, e.ioQ, ByEpoll(ready));
    var timeout;
    byPoll, timeout := p.Dispatch(ready, sleepQ, lastClock);
    byEpoll, timeout := e.Dispatch(ready, evts, sleepQ, lastClock);
  }
}
