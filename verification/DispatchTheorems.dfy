/** The dispatch of the scheduler, thread by thread, and which thread finds what. */
module DispatchTheorems {
  import opened HeapLayout
  import opened PollSets
  import opened SeqFacts
  import opened Timeouts
  import opened Scheduler
  import opened SchedulerInvariant

  /** The thread of an element that has left the io queue becomes runnable. */
  function WakeOne(s: Vp, pq: PollQ): Vp {
    Wake(With(s, pq.thread, Get(s, pq.thread).(pc := InPoll(Some(pq.pds)))), pq.thread)
  }

  function WakeAll(s: Vp, w: seq<PollQ>): Vp
    decreases |w|
  {
    if w == [] then s else WakeAll(WakeOne(s, w[0]), w[1..])
  }

  lemma WakeOneAside(s: Vp, pq: PollQ, q: seq<PollQ>)
    ensures WakeOne(s, pq).(ioQ := q) == WakeOne(s.(ioQ := q), pq)
  {
  }

  lemma UnfiredIsStripped(pds: seq<PollFd>, answer: Answer)
    requires !Notified(FireAll(pds, answer))
    ensures FireAll(pds, answer) == Strip(pds)
  {
    var r := FireAll(pds, answer);
    assert forall i :: 0 <= i < |r| ==> r[i].revents == {};
  }

  function Dispatched(s: Vp, i: nat, answer: Answer): Vp
    requires i <= |s.ioQ|
  {
    WakeAll(s.(ioQ := s.ioQ[..i] + Kept(s.ioQ[i..], answer)), Woken(s.ioQ[i..], answer))
  }

  lemma DispatchedWoken(s: Vp, i: nat, pds: seq<PollFd>, answer: Answer)
    requires i < |s.ioQ| && pds == FireAll(s.ioQ[i].pds, answer) && Notified(pds)
    ensures Dispatched(WakeIo(s, i, pds), i, answer) == Dispatched(s, i, answer)
  {
    var q, s' := s.ioQ, WakeIo(s, i, pds);
    var pq, kept := q[i].(pds := pds), q[..i] + Kept(q[i + 1..], answer);
    assert q[i..][0] == q[i] && q[i..][1..] == q[i + 1..];
    assert Woken(q[i..], answer) == [pq] + Woken(q[i + 1..], answer) && Kept(q[i..], answer) == Kept(q[i + 1..], answer);
    assert s'.ioQ == RemoveAt(q, i) && s'.ioQ[..i] == q[..i] && s'.ioQ[i..] == q[i + 1..];
    WakeOneAside(s, pq, RemoveAt(q, i));
    WakeOneAside(s, pq, kept);
    assert s'.(ioQ := kept) == WakeOne(s.(ioQ := kept), pq);
    HeadWoken(s.(ioQ := kept), pq, Woken(q[i + 1..], answer));
  }

  lemma DispatchedKept(s: Vp, i: nat, pds: seq<PollFd>, answer: Answer)
    requires i < |s.ioQ| && pds == FireAll(s.ioQ[i].pds, answer) && !Notified(pds)
    ensures Dispatched(KeepIo(s, i, pds), i + 1, answer) == Dispatched(s, i, answer)
  {
    var q, s' := s.ioQ, KeepIo(s, i, pds);
    UnfiredIsStripped(q[i].pds, answer);
    assert q[i..][0] == q[i] && q[i..][1..] == q[i + 1..];
    var pq := q[i].(pds := pds);
    assert Woken(q[i..], answer) == Woken(q[i + 1..], answer) && Kept(q[i..], answer) == [pq] + Kept(q[i + 1..], answer);
    assert s'.ioQ[..i + 1] == q[..i] + [pq] && s'.ioQ[i + 1..] == q[i + 1..];
    Associates(q[..i], [pq], Kept(q[i + 1..], answer));
  }

  lemma DispatchedAll(s: Vp, answer: Answer)
    ensures Dispatched(s, |s.ioQ|, answer) == s
  {
    var q, n := s.ioQ, |s.ioQ|;
    assert q[n..] == [] && q[..n] == q && q[..n] + [] == q;
  }

  /** What the loop over the io queue does from element `i` on: the elements to keep
      stay, and the threads of the others become runnable in queue order. */
  lemma {:induction false} ServeIoWakes(s: Vp, i: nat, answer: Answer)
    requires i <= |s.ioQ|
    ensures ServeIo(s, i, answer) == Dispatched(s, i, answer)
    decreases |s.ioQ| - i
  {
    var q := s.ioQ;
    if i == |q| {
      DispatchedAll(s, answer);
    } else {
      var pds := FireAll(q[i].pds, answer);
      if Notified(pds) {
        ServeIoWakes(WakeIo(s, i, pds), i, answer);
        DispatchedWoken(s, i, pds, answer);
      } else {
        ServeIoWakes(KeepIo(s, i, pds), i + 1, answer);
        DispatchedKept(s, i, pds, answer);
      }
    }
  }

  lemma HeadWoken(s: Vp, pq: PollQ, w: seq<PollQ>)
    ensures WakeAll(s, [pq] + w) == WakeAll(WakeOne(s, pq), w)
  {
    assert ([pq] + w)[1..] == w;
  }

  lemma ServeAll(s: Vp, answer: Answer)
    ensures ServeIo(s, 0, answer) == WakeAll(s.(ioQ := Kept(s.ioQ, answer)), Woken(s.ioQ, answer))
  {
    ServeIoWakes(s, 0, answer);
    assert s.ioQ[0..] == s.ioQ && s.ioQ[..0] + Kept(s.ioQ, answer) == Kept(s.ioQ, answer);
  }

  lemma {:induction false} WokenKnown(q: seq<PollQ>, answer: Answer, known: set<Tid>)
    requires forall i :: 0 <= i < |q| ==> q[i].thread in known
    ensures forall i :: 0 <= i < |Woken(q, answer)| ==> Woken(q, answer)[i].thread in known
  {
    if q != [] {
      WokenKnown(q[1..], answer, known);
    }
  }
}
