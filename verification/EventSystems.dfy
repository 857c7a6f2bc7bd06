/** `_st_eventsys` of state-threads/event.c: the event system that was chosen, behind
    the operations that the scheduler calls it by. */
module EventSystems {
  import opened PollSets
  import opened SeqFacts
  import opened HeapLayout
  import opened Timeouts
  import S = SelectBackend
  import P = PollBackend
  import E = EpollBackend

  datatype Choice = UseSelect(s: S.Select) | UsePoll(p: P.Poll) | UseEpoll(e: E.Epoll)

  class EventSystem {
    const chosen: Choice
    ghost var parts: set<object>         // everything that an operation may change
    ghost var requests: seq<PollQ>       // the io queue, without what was reported earlier

    ghost predicate Valid()
      reads this, parts
    {
      match chosen
      case UseSelect(s) => parts == {this, s, s.refCnts} && s.Valid() && requests == StripQ(s.ioQ)
      case UsePoll(p) => p in parts && parts == {this, p, p.pollfds} && p.Valid() && requests == StripQ(p.ioQ)
      case UseEpoll(e) => e in parts && parts == {this, e, e.fdData} && e.Valid() && requests == StripQ(e.ioQ)
    }

    /** `_ST_IOQ`. */
    function Elements(): seq<PollQ>
      reads this, parts
      requires Valid()
    {
      match chosen case UseSelect(s) => s.ioQ case UsePoll(p) => p.ioQ case UseEpoll(e) => e.ioQ
    }

    function Which(): Kind {
      match chosen case UseSelect(_) => Selecting case UsePoll(_) => Polling case UseEpoll(_) => Epolling
    }

    /** `evts` is something that `epoll_wait` may return. */
    ghost predicate MayReturn(ready: Ready, evts: seq<(int, set<Bit>)>)
      reads if chosen.UseEpoll? then {chosen.e} else {}
    {
      chosen.UseEpoll? ==> E.WaitResult(chosen.e.kernel, ready, chosen.e.evtlistSize, evts)
    }

    constructor BySelecting()
      ensures Valid() && requests == [] && fresh(parts) && chosen.UseSelect?
    {
      var s := new S.Select();
      chosen := UseSelect(s);
      parts, requests := {this, s, s.refCnts}, [];
    }

    constructor ByPolling()
      ensures Valid() && requests == [] && fresh(parts) && chosen.UsePoll?
    {
      var p := new P.Poll();
      chosen := UsePoll(p);
      parts, requests := {this, p, p.pollfds}, [];
    }

    constructor ByEpolling(fdHint: nat)
      requires fdHint >= 1
      ensures Valid() && requests == [] && fresh(parts) && chosen.UseEpoll?
    {
      var e := new E.Epoll(fdHint);
      chosen := UseEpoll(e);
      parts, requests := {this, e, e.fdData}, [];
    }

    /** `pollset_add` and `_ST_ADD_IOQ`. */
    method Enqueue(pq: PollQ, refused: set<int>) returns (ok: bool)
      requires Valid()
      modifies parts
      ensures Valid() && fresh(parts - old(parts))
      ensures ok <==> Accepts(Which(), old(requests), pq.pds, refused)
      ensures requests == if ok then old(requests) + [pq.(pds := Strip(pq.pds))] else old(requests)
    {
      match chosen
      case UseSelect(s) =>
        ok := s.Enqueue(pq);
        requests := StripQ(s.ioQ);
      case UsePoll(p) =>
        ok := p.Enqueue(pq);
        requests := StripQ(p.ioQ);
      case UseEpoll(e) =>
        RegisteredIsRequested(e, pq.pds, refused);
        ok := e.Enqueue(pq, refused);
        parts, requests := {this, e, e.fdData}, StripQ(e.ioQ);
    }

    /** How many elements are before the first one of the thread, if there is one. */
    method Find(thread: int) returns (n: nat, found: bool)
      requires Valid()
      ensures FirstOf(requests, thread, n) && (found <==> n < |requests|)
    {
      var q := Elements();
      n := 0;
      while n < |q| && q[n].thread != thread
        invariant n <= |q| && forall i :: 0 <= i < n ==> q[i].thread != thread
      {
        n := n + 1;
      }
      found := n < |q|;
    }

    /** `_ST_DEL_IOQ` and `pollset_del`. */
    method Withdraw(n: nat)
      requires Valid() && n < |requests|
      modifies parts
      ensures Valid() && fresh(parts - old(parts))
      ensures requests == RemoveAt(old(requests), n)
    {
      match chosen
      case UseSelect(s) =>
        StripRemoved(s.ioQ, n);
        s.Withdraw(n);
        requests := StripQ(s.ioQ);
      case UsePoll(p) =>
        StripRemoved(p.ioQ, n);
        p.Withdraw(n);
        requests := StripQ(p.ioQ);
      case UseEpoll(e) =>
        StripRemoved(e.ioQ, n);
        e.Withdraw(n);
        parts, requests := {this, e, e.fdData}, StripQ(e.ioQ);
    }

    /** The element of a thread is withdrawn, if there is one. */
    method WithdrawThread(thread: int)
      requires Valid()
      modifies parts
      ensures Valid() && fresh(parts - old(parts)) && requests == WithoutThread(old(requests), thread)
    {
      var n, found := Find(thread);
      WithoutFirst(requests, thread, n);
      if found {
        Withdraw(n);
      }
    }

    /** The kernel's part of an epoll dispatch. */
    method KernelWait(ready: Ready) returns (evts: seq<(int, set<Bit>)>)
      ensures MayReturn(ready, evts)
    {
      evts := [];
      if chosen.UseEpoll? {
        evts := E.EpollWait(chosen.e.kernel, ready, chosen.e.evtlistSize);
      }
    }

    /** `dispatch`: the elements to wake, and the longest wait in the kernel. */
    method Dispatch(ready: Ready, evts: seq<(int, set<Bit>)>, sleepQ: seq<Entry<int>>, lastClock: int)
        returns (woken: seq<PollQ>, wait: Option<nat>)
      requires Valid() && MayReturn(ready, evts)
      modifies parts
      ensures Valid() && fresh(parts - old(parts))
      ensures var answer := Answered(Which(), ready, sleepQ, lastClock);
        woken == Woken(old(requests), answer) && requests == Kept(old(requests), answer)
      ensures wait == LongestWait(Which(), sleepQ, lastClock)
    {
      match chosen
      case UseSelect(s) =>
        AnsweredAlike(s.ioQ, Answered(Selecting, ready, sleepQ, lastClock));
        NothingReady(s.ioQ);
        var tv;
        woken, tv := s.Dispatch(ready, sleepQ, lastClock);
        requests := StripQ(s.ioQ);
        wait := SelectWait(tv);
      case UsePoll(p) =>
        AnsweredAlike(p.ioQ, ByPoll(ready));
        var timeout;
        woken, timeout := p.Dispatch(ready, sleepQ, lastClock);
        parts, requests := {this, p, p.pollfds}, StripQ(p.ioQ);
        wait := PollWait(timeout);
      case UseEpoll(e) =>
        AnsweredAlike(e.ioQ, ByEpoll(ready));
        var timeout;
        woken, timeout := e.Dispatch(ready, evts, sleepQ, lastClock);
        parts, requests := {this, e, e.fdData}, StripQ(e.ioQ);
        wait := PollWait(timeout);
    }
  }

  /** Which of the three it is. */
  datatype Kind = Selecting | Polling | Epolling

  /** The wait in the kernel that a dispatch asks for. */
  function LongestWait(kind: Kind, sleepQ: seq<Entry<int>>, lastClock: int): Option<nat> {
    if kind == Selecting then SelectWait(SelectTimeout(sleepQ, lastClock)) else PollWait(PollTimeout(sleepQ, lastClock))
  }

  /** The kernel's answer, as the event system gets to see it: when `select` fails for
      its timeout, nothing is ready. */
  function Answered(kind: Kind, ready: Ready, sleepQ: seq<Entry<int>>, lastClock: int): Answer {
    match kind
    case Selecting => BySelect(if Invalid(SelectTimeout(sleepQ, lastClock)) then map[] else ready)
    case Polling => ByPoll(ready)
    case Epolling => ByEpoll(ready)
  }

  /** A pollset that is taken on top of the requests `q`, while the kernel refuses to
      register the descriptors `refused`: they can be taken only by epoll, and only if
      they are registered already. */
  predicate Accepts(kind: Kind, q: seq<PollQ>, pds: seq<PollFd>, refused: set<int>) {
    match kind
    case Selecting => S.Acceptable(pds)
    case Polling => P.Acceptable(pds)
    case Epolling => E.Acceptable(pds) && forall i :: 0 <= i < |pds| && pds[i].fd in refused ==> E.Wanted(Flat(q), pds[i].fd) != {}
  }

  /** What epoll has registered are the descriptors of the io queue. */
  lemma RegisteredIsRequested(e: E.Epoll, pds: seq<PollFd>, refused: set<int>)
    requires e.Valid()
    ensures E.Acceptable(pds) && e.Registrable(pds, refused) <==> Accepts(Epolling, StripQ(e.ioQ), pds, refused)
  {
    e.KernelIsRecount(Flat(e.ioQ));
    forall fd ensures E.Wanted(Flat(StripQ(e.ioQ)), fd) == E.Wanted(Flat(e.ioQ), fd) {
      forall b ensures CountOn(Flat(StripQ(e.ioQ)), fd, b) == CountOn(Flat(e.ioQ), fd, b) {
        CountOfRequests(e.ioQ, fd, b);
      }
    }
    assert forall fd :: fd in e.kernel <==> E.Wanted(Flat(StripQ(e.ioQ)), fd) != {};
  }

  /** `n` is the position of the first element of the thread, or there is none. */
  ghost predicate FirstOf(q: seq<PollQ>, t: int, n: nat) {
    n <= |q| && (n < |q| ==> q[n].thread == t) && forall i :: 0 <= i < n ==> q[i].thread != t
  }

  lemma AnsweredAlike(q: seq<PollQ>, answer: Answer)
    ensures Woken(StripQ(q), answer) == Woken(q, answer) && Kept(StripQ(q), answer) == Kept(q, answer)
  {
    forall i | 0 <= i < |q| ensures StripQ(StripQ(q))[i] == StripQ(q)[i] {
      assert Strip(Strip(q[i].pds)) == Strip(q[i].pds);
    }
    DispatchIgnoresReports(StripQ(q), q, answer);
  }

  lemma {:induction false} WithoutFirst(q: seq<PollQ>, t: int, n: nat)
    requires FirstOf(q, t, n)
    ensures WithoutThread(q, t) == if n < |q| then RemoveAt(q, n) else q
  {
    if q != [] && n > 0 {
      assert forall i :: 0 <= i < |q| - 1 ==> q[1..][i] == q[i + 1];
      WithoutFirst(q[1..], t, n - 1);
      if n < |q| {
        RemoveAtTail(q, n);
      } else {
        assert q == [q[0]] + q[1..];
      }
    }
  }
}
