/** What the scheduler promises its callers, over every run. */
module SchedulerTheorems {
  import opened HeapLayout
  import opened PollSets
  import opened SeqFacts
  import opened Timeouts
  import opened Scheduler
  import opened SchedulerInvariant
  import opened SchedulerSteps
  import opened SchedulerRuns

  // ------------------------------------------------------------ states and queues

  /** Thread `t` is on each queue exactly when its state and flags say so, and on
      none of them twice. */
  ghost predicate QueuesMatch(s: Vp, t: Tid) {
    var x := Get(s, t);
    && (x.state.RUNNABLE? && t != s.idle <==> t in s.runQ) && multiset(s.runQ)[t] <= 1
    && (x.state.ZOMBIE? <==> t in s.zombieQ) && multiset(s.zombieQ)[t] <= 1
    && (x.onSleepQ <==> t in Whos(s.sleepQ)) && multiset(Whos(s.sleepQ))[t] <= 1
    && (x.onSleepQ ==> x.state.IO_WAIT? || x.state.COND_WAIT? || x.state.SLEEPING?)
    && (x.timedOut ==> x.pc.InCondWait? && t in WaitQ(s, x.pc.cv) && (x.state.RUNNABLE? || t == s.cur))
    && (x.state.RUNNING? && !x.pc.Dead? <==> t == s.cur)
  }

  lemma MatchOne(s: Vp, t: Tid)
    requires Inv(s)
    ensures QueuesMatch(s, t)
  {
    var x := Get(s, t);
    assert Coherent(x);
    assert t in s.runQ <==> multiset(s.runQ)[t] > 0;
    assert t in s.zombieQ <==> multiset(s.zombieQ)[t] > 0;
    assert t in Whos(s.sleepQ) <==> multiset(Whos(s.sleepQ))[t] > 0;
    if Waits(x) {
      WaitersExist(s, t);
    }
  }

  /** All threads match their queues, the heap is in order, the idle thread is not
      on the run queue, and it runs only when nobody else can. */
  ghost predicate AllMatch(s: Vp) {
    && (forall t: Tid :: QueuesMatch(s, t))
    && HeapOrdered(s.sleepQ) && s.idle !in s.runQ && s.active == |Live(s)|
    && (s.cur == s.idle ==> s.runQ == [])
  }

  lemma InvMatches(s: Vp)
    requires Inv(s)
    ensures AllMatch(s)
  {
    forall t: Tid ensures QueuesMatch(s, t) {
      MatchOne(s, t);
    }
    assert QueuesMatch(s, s.idle);
  }

  lemma ReachableInv(idle: Tid, primordial: Tid, now: int, es: seq<Event>)
    requires idle != primordial && CanRun(Init(idle, primordial, now), es)
    ensures Inv(Run(Init(idle, primordial, now), es))
  {
    InitIsOk(idle, primordial, now);
    RunKeeps(Init(idle, primordial, now), es);
  }

  /** Every state that the scheduler can reach matches. */
  lemma ReachableStatesAgree(idle: Tid, primordial: Tid, now: int, es: seq<Event>)
    requires idle != primordial && CanRun(Init(idle, primordial, now), es)
    ensures AllMatch(Run(Init(idle, primordial, now), es))
  {
    ReachableInv(idle, primordial, now, es);
    InvMatches(Run(Init(idle, primordial, now), es));
  }

  // --------------------------------------------------- the clock and the dispatch

  /** The loop of `_st_vp_check_clock` puts the threads that are due at the tail of
      the run queue, in the order in which the heap yields them. */
  lemma {:induction false} ExpireAllMoves(s: Vp, now: int)
    ensures var s', r := ExpireAll(s, now), PopDue(s.sleepQ, now);
      && s'.runQ == s.runQ + Whos(r.0) && s'.sleepQ == r.1
      && s'.mutexes == s.mutexes && s'.conds == s.conds && s'.ioQ == s.ioQ && s'.cur == s.cur && s'.idle == s.idle
    decreases |s.sleepQ|
  {
    if s.sleepQ != [] && At(s.sleepQ, 1).due <= now {
      var root, rest := At(s.sleepQ, 1), PopDue(Delete(s.sleepQ, 1), now);
      ExpireAllMoves(Expire(s, now), now);
      WhosOfConcat([root], rest.0);
      assert Whos([root]) == [root.who];
      Associates(s.runQ, [root.who], Whos(rest.0));
    }
  }

  /** `_st_vp_check_clock` moves exactly the threads that are due, earliest first,
      and leaves only those that are due later. */
  lemma CheckClockIsExact(s: Vp, now: int)
    requires Inv(s)
    ensures var s', popped := CheckClock(s, now), PopDue(s.sleepQ, now).0;
      && s'.runQ == s.runQ + Whos(popped)
      && ExactlyDue(s.sleepQ, now, popped, s'.sleepQ) && HeapOrdered(s'.sleepQ)
  {
    ExpireAllMoves(s.(lastClock := now), now);
    PopDueIsExact(s.sleepQ, now);
  }

  /** `s'` comes from serving the io queue of `s` from element `i` on: the threads of
      the elements that any backend takes off have been made runnable in order,
      and the elements that any backend leaves are left. */
  ghost predicate Served(s: Vp, s': Vp, i: nat, answer: Answer)
    requires i <= |s.ioQ|
  {
    && s'.runQ == s.runQ + Pollers(Woken(s.ioQ[i..], answer))
    && StripQ(s'.ioQ) == StripQ(s.ioQ[..i]) + Kept(s.ioQ[i..], answer)
    && s'.mutexes == s.mutexes && s'.conds == s.conds && s'.cur == s.cur && s'.idle == s.idle
  }

  lemma WokenServed(s: Vp, s': Vp, i: nat, answer: Answer)
    requires i < |s.ioQ| && Notified(FireAll(s.ioQ[i].pds, answer))
    requires Served(WakeIo(s, i, FireAll(s.ioQ[i].pds, answer)), s', i, answer)
    ensures Served(s, s', i, answer)
  {
    var pds := FireAll(s.ioQ[i].pds, answer);
    var q', w := WakeIo(s, i, pds).ioQ, s.ioQ[i].(pds := pds);
    assert q' == RemoveAt(s.ioQ, i);
    TurnedKeepsWoken(s.ioQ, q', i, [w], answer);
    TurnedKeepsKept(s.ioQ, q', i, [w], answer);
    PollersPrepended(w, Woken(q'[i..], answer));
    Associates(s.runQ, [w.thread], Pollers(Woken(q'[i..], answer)));
  }

  lemma KeptServed(s: Vp, s': Vp, i: nat, answer: Answer)
    requires i < |s.ioQ| && !Notified(FireAll(s.ioQ[i].pds, answer))
    requires Served(KeepIo(s, i, FireAll(s.ioQ[i].pds, answer)), s', i + 1, answer)
    ensures Served(s, s', i, answer)
  {
    var pds := FireAll(s.ioQ[i].pds, answer);
    var q' := KeepIo(s, i, pds).ioQ;
    assert Strip(pds) == Strip(s.ioQ[i].pds);
    TurnedKeepsWoken(s.ioQ, q', i + 1, [], answer);
    TurnedKeepsKept(s.ioQ, q', i + 1, [], answer);
  }

  /** The loop of a dispatch agrees with what the backends do. */
  lemma {:induction false} ServeIoIsDispatch(s: Vp, i: nat, answer: Answer)
    requires i <= |s.ioQ|
    ensures Served(s, ServeIo(s, i, answer), i, answer)
    decreases |s.ioQ| - i
  {
    if i == |s.ioQ| {
      assert s.ioQ[..i] == s.ioQ;
    } else {
      var pds := FireAll(s.ioQ[i].pds, answer);
      if Notified(pds) {
        ServeIoIsDispatch(WakeIo(s, i, pds), i, answer);
        WokenServed(s, ServeIo(s, i, answer), i, answer);
      } else {
        ServeIoIsDispatch(KeepIo(s, i, pds), i + 1, answer);
        KeptServed(s, ServeIo(s, i, answer), i, answer);
      }
    }
  }

  lemma PollersPrepended(w: PollQ, q: seq<PollQ>)
    ensures Pollers([w] + q) == [w.thread] + Pollers(q)
  {
  }

  /** Whoever has something to report runs first, in queue order, then whoever is
      due, earliest first; nobody else is woken. */
  ghost predicate InOrder(s: Vp, s0: Vp, s1: Vp, answer: Answer, now: int) {
    var late := PopDue(s0.sleepQ, now).0;
    && s1.runQ == Pollers(Woken(s.ioQ, answer)) + Whos(late) && StripQ(s1.ioQ) == Kept(s.ioQ, answer)
    && ExactlyDue(s0.sleepQ, now, late, s1.sleepQ)
  }

  /** The order in which a turn of the idle thread wakes threads. */
  lemma IdleTurnOrder(s: Vp, answer: Answer, now: int)
    requires Inv(s) && Me(s).pc.InIdle?
    ensures InOrder(s, ServeIo(s, 0, answer), CheckClock(ServeIo(s, 0, answer), now), answer, now)
  {
    ServedHeap(s, answer);
    ServeIoIsDispatch(s, 0, answer);
    ClockAfter(s, ServeIo(s, 0, answer), answer, now);
  }

  lemma ClockAfter(s: Vp, s0: Vp, answer: Answer, now: int)
    requires s.runQ == [] && HeapOrdered(s0.sleepQ) && Served(s, s0, 0, answer)
    ensures InOrder(s, s0, CheckClock(s0, now), answer, now)
  {
    ServedAll(s, s0, answer);
    ExpireAllMoves(s0.(lastClock := now), now);
    PopDueIsExact(s0.sleepQ, now);
  }

  lemma ServedAll(s: Vp, s0: Vp, answer: Answer)
    requires s.runQ == [] && Served(s, s0, 0, answer)
    ensures s0.runQ == Pollers(Woken(s.ioQ, answer)) && StripQ(s0.ioQ) == Kept(s.ioQ, answer)
  {
    assert s.ioQ[0..] == s.ioQ && StripQ(s.ioQ[..0]) == [];
  }

  lemma ServedHeap(s: Vp, answer: Answer)
    requires Inv(s) && Me(s).pc.InIdle?
    ensures HeapOrdered(ServeIo(s, 0, answer).sleepQ) && s.runQ == []
  {
    DispatchFindsWaiters(s);
    ServeIoKeeps(s, 0, answer, Some(s.cur), s.cur, s.idle);
  }

  // ------------------------------------------------------------------- run order

  /** Each loop only adds to the tail of the run queue. */
  lemma {:induction false} SignalAppends(s: Vp, q: seq<Tid>, broadcast: bool)
    ensures var s' := SignalAlong(s, q, broadcast);
      s.runQ <= s'.runQ && s'.mutexes == s.mutexes && s'.conds == s.conds && s'.cur == s.cur && s'.idle == s.idle
    decreases |q|
  {
    if q != [] {
      if Get(s, q[0]).state.COND_WAIT? {
        if broadcast {
          SignalAppends(Signalled(s, q[0]), q[1..], broadcast);
        }
      } else {
        SignalAppends(s, q[1..], broadcast);
      }
    }
  }

  lemma {:induction false} HandOverAppends(s: Vp, m: Mx, q: seq<Tid>)
    ensures s.runQ <= HandOver(s, m, q).runQ && HandOver(s, m, q).cur == s.cur
  {
    if q != [] && !Get(s, q[0]).state.LOCK_WAIT? {
      HandOverAppends(s, m, q[1..]);
    }
  }

  /** A call that switches goes on with the head of the run queue; whatever
      happens, nobody on the run queue is overtaken. */
  ghost predicate NobodyOvertakes(s: Vp, r: (Vp, Outcome)) {
    s.runQ != [] ==>
      if r.1.Switched? then r.0.cur == s.runQ[0] && s.runQ[1..] <= r.0.runQ
      else r.0.cur == s.cur && s.runQ <= r.0.runQ
  }

  lemma ExitIsFifo(s: Vp)
    ensures NobodyOvertakes(s, ThreadExit(s))
  {
    match Me(s).term
    case Some(cv) =>
      var s' := Block(s.(active := s.active - 1, zombieQ := s.zombieQ + [s.cur]), ZOMBIE, InExit);
      SignalAppends(s', WaitQ(s', cv), false);
    case None =>
  }

  lemma JoinIsFifo(s: Vp, t: Tid, cv: Cv)
    ensures NobodyOvertakes(s, JoinLoop(s, t, cv)) && NobodyOvertakes(s, JoinResumed(s, t, cv))
  {
    var s1 := CondResumed(s, cv).0;
    assert s1.runQ == s.runQ && s1.cur == s.cur;
  }

  lemma ResumeIsFifo(s: Vp)
    ensures NobodyOvertakes(s, Resume(s))
  {
    match Me(s).pc
    case InJoin(t, cv, _) => JoinIsFifo(s, t, cv);
    case _ =>
  }

  lemma EventIsFifo(s: Vp, e: Event)
    requires e.EvIdle? ==> s.runQ == []
    ensures NobodyOvertakes(s, Do(s, e))
  {
    match e
    case EvSignal(cv, broadcast) => SignalAppends(s, WaitQ(s, cv), broadcast);
    case EvUnlock(m) => HandOverAppends(s, m, MutexOf(s, m).waitQ);
    case EvExit => ExitIsFifo(s);
    case EvResume => ResumeIsFifo(s);
    case EvPoll(pds, accepted, timeout) => PollIsFifo(s, pds, accepted, timeout);
    case EvWait(cv, timeout) => WaitIsFifo(s, cv, timeout);
    case EvInterrupt(t) => InterruptIsFifo(s, t);
    case EvJoin(t) => JoinCallIsFifo(s, t);
    case _ =>
  }

  lemma PollIsFifo(s: Vp, pds: seq<PollFd>, accepted: bool, timeout: Option<nat>)
    ensures NobodyOvertakes(s, Poll(s, pds, accepted, timeout))
  {
  }

  lemma WaitIsFifo(s: Vp, cv: Cv, timeout: Option<nat>)
    ensures NobodyOvertakes(s, CondTimedWait(s, cv, timeout))
  {
  }

  lemma InterruptIsFifo(s: Vp, t: Tid)
    ensures NobodyOvertakes(s, ThreadInterrupt(s, t))
  {
  }

  lemma JoinCallIsFifo(s: Vp, t: Tid)
    ensures NobodyOvertakes(s, ThreadJoin(s, t))
  {
    if Get(s, t).term.Some? {
      JoinIsFifo(s, t, Get(s, t).term.value);
    }
  }

  lemma RunQueueIsFifo(s: Vp, e: Event)
    requires Inv(s) && Enabled(s, e)
    ensures NobodyOvertakes(s, Do(s, e))
  {
    EventIsFifo(s, e);
  }

  /** The threads that the context switches of a run go to, in order. */
  function Switches(s: Vp, es: seq<Event>): seq<Tid>
    decreases |es|
  {
    if es == [] then []
    else (if Do(s, es[0]).1.Switched? then [Step(s, es[0]).cur] else []) + Switches(Step(s, es[0]), es[1..])
  }

  /** The run queue after an event, and the switch it made, if any. */
  lemma TurnTaken(s: Vp, r: (Vp, Outcome), k: nat)
    requires NobodyOvertakes(s, r) && k < |s.runQ|
    ensures if !r.1.Switched? then k < |r.0.runQ| && r.0.runQ[k] == s.runQ[k]
            else if k == 0 then r.0.cur == s.runQ[0]
            else k - 1 < |r.0.runQ| && r.0.runQ[k - 1] == s.runQ[k]
  {
    assert k > 0 ==> s.runQ[1..][k - 1] == s.runQ[k];
  }

  /** Along the run, nobody on the run queue is ever overtaken. */
  ghost predicate FifoRun(s: Vp, es: seq<Event>)
    decreases |es|
  {
    es == [] || (NobodyOvertakes(s, Do(s, es[0])) && FifoRun(Do(s, es[0]).0, es[1..]))
  }

  lemma {:induction false} RunsAreFifo(s: Vp, es: seq<Event>)
    requires Inv(s) && CanRun(s, es)
    ensures FifoRun(s, es)
    decreases |es|
  {
    if es != [] {
      StepKeeps(s, es[0]);
      RunQueueIsFifo(s, es[0]);
      RunsAreFifo(Step(s, es[0]), es[1..]);
    }
  }

  lemma {:induction false} FifoOrder(s: Vp, es: seq<Event>, k: nat)
    requires FifoRun(s, es) && k < |s.runQ| && k < |Switches(s, es)|
    ensures Switches(s, es)[k] == s.runQ[k]
    decreases |es|
  {
    var r := Do(s, es[0]);
    var rest := Switches(r.0, es[1..]);
    TurnTaken(s, r, k);
    if !r.1.Switched? {
      assert Switches(s, es) == rest;
      FifoOrder(r.0, es[1..], k);
    } else {
      assert Switches(s, es) == [r.0.cur] + rest;
      if k > 0 {
        FifoOrder(r.0, es[1..], k - 1);
      }
    }
  }

  /** No starvation: in every run, the k-th context switch goes to the thread that
      is at position k of the run queue now. */
  lemma RunsInQueueOrder(s: Vp, es: seq<Event>, k: nat)
    requires Inv(s) && CanRun(s, es) && k < |s.runQ| && k < |Switches(s, es)|
    ensures Switches(s, es)[k] == s.runQ[k]
  {
    RunsAreFifo(s, es);
    FifoOrder(s, es, k);
  }
}
