/** What sleeps and polls with a timeout promise, over every run: nobody wakes early. */
module SleepTheorems {
  import opened HeapLayout
  import opened PollSets
  import opened SeqFacts
  import opened Timeouts
  import opened Scheduler
  import opened SchedulerInvariant
  import opened SchedulerSteps
  import opened SchedulerRuns
  import opened SchedulerTheorems
  import opened CondTheorems

  // --------------------------------------------------------------- the heap keeps

  lemma InsertKeeps(h: seq<Entry<Tid>>, c: Entry<Tid>, e: Entry<Tid>)
    requires e in h
    ensures e in Insert(h, c)
  {
    InsertMembers(h, c);
    assert e in multiset(h + [c]);
  }

  lemma WithoutKeeps(h: seq<Entry<Tid>>, u: Tid, e: Entry<Tid>)
    requires e in h && e.who != u
    ensures e in HeapWithout(h, u)
  {
    var k := Pos(h, u);
    if k > 0 {
      DeleteMembers(h, k);
      assert e in multiset(h);
      assert e in multiset(Delete(h, k) + [At(h, k)]);
      assert e != At(h, k);
    }
  }

  /** `t` is in `st_usleep` or `st_poll`, and the heap will wake it at `due`. */
  ghost predicate Waiting(s: Vp, t: Tid, due: int) {
    (Get(s, t).pc.InSleep? || Get(s, t).pc == InPoll(None)) && Entry(t, due) in s.sleepQ
  }

  /** The poll of `t` has something to return. */
  ghost predicate Reported(s: Vp, t: Tid) {
    Get(s, t).pc.InPoll? && Get(s, t).pc.fired.Some? && Notified(Get(s, t).pc.fired.value)
  }

  lemma {:induction false} SignalLeaves(s: Vp, q: seq<Tid>, broadcast: bool, t: Tid, due: int)
    requires Waiting(s, t, due) && !Get(s, t).state.COND_WAIT?
    ensures Waiting(SignalAlong(s, q, broadcast), t, due)
    decreases |q|
  {
    if q != [] {
      if Get(s, q[0]).state.COND_WAIT? {
        WithoutKeeps(s.sleepQ, q[0], Entry(t, due));
        if broadcast {
          SignalLeaves(Wake(With(s, q[0], Noted(Get(s, q[0]), BySignal)), q[0]), q[1..], broadcast, t, due);
        }
      } else {
        SignalLeaves(s, q[1..], broadcast, t, due);
      }
    }
  }

  lemma WakeIoLeaves(s: Vp, i: nat, pds: seq<PollFd>, t: Tid, due: int)
    requires i < |s.ioQ| && Notified(pds) && (Entry(t, due) in s.sleepQ || Reported(s, t))
    ensures var s' := WakeIo(s, i, pds);
      Reported(s', t) || (Entry(t, due) in s'.sleepQ && Get(s', t) == Get(s, t))
  {
    if Entry(t, due) in s.sleepQ && s.ioQ[i].thread != t {
      WithoutKeeps(s.sleepQ, s.ioQ[i].thread, Entry(t, due));
    }
  }

  /** A dispatch reports on the poll, or leaves the thread alone. */
  lemma {:induction false} ServeLeaves(s: Vp, i: nat, answer: Answer, t: Tid, due: int)
    requires Entry(t, due) in s.sleepQ || Reported(s, t)
    ensures var s' := ServeIo(s, i, answer);
      Reported(s', t) || (Entry(t, due) in s'.sleepQ && Get(s', t) == Get(s, t))
    decreases |s.ioQ| - i
  {
    if i < |s.ioQ| {
      var pds := FireAll(s.ioQ[i].pds, answer);
      if Notified(pds) {
        WakeIoLeaves(s, i, pds, t, due);
        ServeLeaves(WakeIo(s, i, pds), i, answer, t, due);
      } else {
        ServeLeaves(KeepIo(s, i, pds), i + 1, answer, t, due);
      }
    }
  }

  /** What is due later stays in the heap. */
  lemma ExpireKeepsLater(s: Vp, now: int, e: Entry<Tid>)
    requires HeapOrdered(s.sleepQ) && e in s.sleepQ && now < e.due
    ensures e in ExpireAll(s, now).sleepQ
  {
    ExpireAllMoves(s, now);
    PopDueIsExact(s.sleepQ, now);
    var (popped, rest) := PopDue(s.sleepQ, now);
    assert e in multiset(s.sleepQ);
    assert e in multiset(popped + rest);
  }

  // ------------------------------------------------------------------- one event

  /** A thread that waits so is blocked, and not the one that calls. */
  lemma WaitingFacts(s: Vp, e: Event, t: Tid, due: int)
    requires Inv(s) && Enabled(s, e) && Waiting(s, t, due)
    ensures t in s.thr && t != s.cur && t != s.idle && Blocked(Get(s, t)) && !Get(s, t).interrupt
    ensures !Get(s, t).state.COND_WAIT? && !Get(s, t).state.LOCK_WAIT?
    ensures Get(s, t).onSleepQ
  {
    assert Coherent(Get(s, t));
    InHeap(s, t, due);
  }

  lemma InHeap(s: Vp, t: Tid, due: int)
    requires SleepQOk(s) && Entry(t, due) in s.sleepQ
    ensures Get(s, t).onSleepQ
  {
    var i :| 0 <= i < |s.sleepQ| && s.sleepQ[i] == Entry(t, due);
    assert Whos(s.sleepQ)[i] == t;
    assert multiset(Whos(s.sleepQ))[t] > 0;
  }

  /** Calls and resumptions of other threads leave the entry in the heap. */
  lemma HeapLeaves(s: Vp, e: Event, t: Tid, due: int)
    requires Entry(t, due) in s.sleepQ && Enabled(s, e) && e != EvInterrupt(t)
    requires !e.EvSignal? && !e.EvExit? && !e.EvIdle?
    ensures Entry(t, due) in Step(s, e).sleepQ
  {
    match e
    case EvPoll(_, _, timeout) => EntryAdded(s, timeout, Entry(t, due));
    case EvSleep(timeout) => EntryAdded(s, timeout, Entry(t, due));
    case EvWait(_, timeout) => EntryAdded(s, timeout, Entry(t, due));
    case EvInterrupt(u) => WithoutKeeps(s.sleepQ, u, Entry(t, due));
    case _ => HeapUntouched(s, e);
  }

  lemma HeapUntouched(s: Vp, e: Event)
    requires !e.EvPoll? && !e.EvSleep? && !e.EvWait? && !e.EvInterrupt? && !e.EvSignal? && !e.EvExit? && !e.EvIdle?
    ensures Step(s, e).sleepQ == s.sleepQ
  {
    match e
    case EvResume => ResumeLeaves(s);
    case EvUnlock(m) => HandOverLeaves(s, m, MutexOf(s, m).waitQ);
    case _ =>
  }

  lemma {:induction false} HandOverLeaves(s: Vp, m: Mx, q: seq<Tid>)
    ensures HandOver(s, m, q).sleepQ == s.sleepQ
  {
    if q != [] && !Get(s, q[0]).state.LOCK_WAIT? {
      HandOverLeaves(s, m, q[1..]);
    }
  }

  lemma EntryAdded(s: Vp, timeout: Option<nat>, e: Entry<Tid>)
    requires e in s.sleepQ
    ensures timeout.Some? ==> e in Insert(s.sleepQ, Entry(s.cur, s.lastClock + timeout.value))
  {
    if timeout.Some? {
      InsertKeeps(s.sleepQ, Entry(s.cur, s.lastClock + timeout.value), e);
    }
  }

  lemma ResumeLeaves(s: Vp)
    ensures Resume(s).0.sleepQ == s.sleepQ
  {
    match Me(s).pc
    case InJoin(target, cv, _) => assert CondResumed(s, cv).0.sleepQ == s.sleepQ;
    case _ =>
  }

  /** An exit signals a variable that only joining threads wait on. */
  lemma NotJoining(s: Vp, t: Tid)
    requires Calls(s) && Me(s).term.Some? && !Waits(Get(s, t))
    ensures t !in WaitQ(s, Me(s).term.value)
  {
    var cv := Me(s).term.value;
    assert CondOk(s, cv);
    assert t in WaitQ(s, cv) <==> multiset(WaitQ(s, cv))[t] > 0;
  }

  lemma ExitLeaves(s: Vp, t: Tid, due: int)
    requires Waiting(s, t, due) && t != s.cur && !Get(s, t).state.COND_WAIT?
    ensures Waiting(ThreadExit(s).0, t, due)
  {
    if Me(s).term.Some? {
      var s' := Block(s.(active := s.active - 1, zombieQ := s.zombieQ + [s.cur]), ZOMBIE, InExit);
      SignalLeaves(s', WaitQ(s', Me(s).term.value), false, t, due);
    }
  }

  /** The rest of an idle turn after the dispatch. */
  lemma ClockLeaves(s1: Vp, now: int, t: Tid, due: int)
    requires t != s1.cur && HeapOrdered(s1.sleepQ) && s1.cur == s1.idle
    requires Reported(s1, t) || (Waiting(s1, t, due) && now < due)
    requires !Get(s1, t).state.COND_WAIT?
    ensures var s3 := Schedule(Block(CheckClock(s1, now), RUNNABLE, InIdle));
      Reported(s3, t) || Waiting(s3, t, due)
  {
    var s2 := s1.(lastClock := now);
    ExpireTouches(s2, now, t);
    ExpireAllMoves(s2, now);
    if Waiting(s1, t, due) && now < due {
      ExpireKeepsLater(s2, now, Entry(t, due));
    }
  }

  /** After the dispatch of an idle turn the state is in order. */
  lemma Dispatched(s: Vp, answer: Answer) returns (s1: Vp)
    requires Inv(s) && Me(s).pc.InIdle?
    ensures s1 == ServeIo(s, 0, answer) && Agrees(s1, Some(s.cur)) && s1.cur == s.cur == s1.idle == s.idle
  {
    DispatchFindsWaiters(s);
    s1 := ServeIo(s, 0, answer);
    ServeIoKeeps(s, 0, answer, Some(s.cur), s.cur, s.idle);
  }

  lemma IdleLeaves(s: Vp, answer: Answer, now: int, t: Tid, due: int)
    requires Inv(s) && Me(s).pc.InIdle? && Waiting(s, t, due) && t != s.cur && now < due
    ensures Waiting(IdleTurn(s, answer, now).0, t, due) || Reported(IdleTurn(s, answer, now).0, t)
  {
    ServeLeaves(s, 0, answer, t, due);
    var s1 := Dispatched(s, answer);
    assert Coherent(Get(s1, t));
    ClockLeaves(s1, now, t, due);
  }

  /** Nothing but its deadline, an interrupt or a report ends the wait. */
  lemma StepLeaves(s: Vp, e: Event, t: Tid, due: int)
    requires Inv(s) && Enabled(s, e) && Waiting(s, t, due) && e != EvInterrupt(t) && !(e.EvIdle? && due <= e.now)
    ensures Waiting(Step(s, e), t, due) || Reported(Step(s, e), t)
  {
    WaitingFacts(s, e, t, due);
    if e.EvIdle? {
      IdleLeaves(s, e.answer, e.now, t, due);
    } else if e.EvSignal? {
      SignalLeaves(s, WaitQ(s, e.cv), e.broadcast, t, due);
    } else if e.EvExit? {
      ExitLeaves(s, t, due);
    } else {
      HeapLeaves(s, e, t, due);
      RecordLeft(s, e, t);
    }
  }

  /** The record of a thread that none of this concerns. */
  lemma RecordLeft(s: Vp, e: Event, t: Tid)
    requires Enabled(s, e) && t != s.cur && t in s.thr && !Get(s, t).state.ZOMBIE? && !Get(s, t).state.LOCK_WAIT?
    requires !e.EvSignal? && !e.EvIdle? && !e.EvExit? && e != EvInterrupt(t)
    ensures Spared(Get(s, t), Get(Step(s, e), t))
  {
    if !e.EvInterrupt? {
      OthersSpare(s, e, t);
    }
  }

  // ----------------------------------------------------- the flag and the report

  /** The thread is in a sleep or a poll, waiting or woken. */
  predicate InCall(x: Thread) {
    x.pc.InSleep? || x.pc.InPoll?
  }

  /** The record after an event: the flag is set by an interrupt only, and a poll that is
      reported on has something to return. */
  ghost predicate CallGoesOn(x: Thread, x': Thread, interrupted: bool) {
    && (x'.interrupt <==> x.interrupt || interrupted)
    && (x'.pc == x.pc || (x.pc == InPoll(None) && x'.pc.InPoll? && x'.pc.fired.Some? && Notified(x'.pc.fired.value)))
  }

  /** From element `i` on, the elements are of different threads, of which `t` is one
      only if it waits in a poll. */
  ghost predicate OwnElement(s: Vp, i: nat, t: Tid) {
    && (Get(s, t).pc == InPoll(None) || forall j :: i <= j < |s.ioQ| ==> s.ioQ[j].thread != t)
    && (forall j, k :: i <= j < k < |s.ioQ| ==> s.ioQ[j].thread != s.ioQ[k].thread)
  }

  lemma WakeIoRecord(s: Vp, i: nat, pds: seq<PollFd>, t: Tid)
    requires i < |s.ioQ| && OwnElement(s, i, t) && Notified(pds)
    ensures var s1 := WakeIo(s, i, pds);
      CallGoesOn(Get(s, t), Get(s1, t), false) && OwnElement(s1, i, t) && s1.idle == s.idle
  {
    var s1 := WakeIo(s, i, pds);
    assert forall j :: i <= j < |s1.ioQ| ==> s1.ioQ[j] == s.ioQ[j + 1];
  }

  lemma {:induction false} ServeRecord(s: Vp, i: nat, answer: Answer, t: Tid)
    requires OwnElement(s, i, t)
    ensures CallGoesOn(Get(s, t), Get(ServeIo(s, i, answer), t), false) && ServeIo(s, i, answer).idle == s.idle
    decreases |s.ioQ| - i
  {
    if i < |s.ioQ| {
      var pds := FireAll(s.ioQ[i].pds, answer);
      if Notified(pds) {
        WakeIoRecord(s, i, pds, t);
        ServeRecord(WakeIo(s, i, pds), i, answer, t);
      } else {
        ServeRecord(KeepIo(s, i, pds), i + 1, answer, t);
      }
    }
  }

  lemma PollersAreDistinct(s: Vp)
    requires IoQOk(s)
    ensures forall j, k :: 0 <= j < k < |s.ioQ| ==> s.ioQ[j].thread != s.ioQ[k].thread
  {
    forall j, k | 0 <= j < k < |s.ioQ| ensures s.ioQ[j].thread != s.ioQ[k].thread {
      PollersDiffer(s, j, k);
    }
  }

  lemma IdleRecord(s: Vp, answer: Answer, now: int, t: Tid)
    requires Inv(s) && Me(s).pc.InIdle? && InCall(Get(s, t)) && t != s.cur
    ensures CallGoesOn(Get(s, t), Get(IdleTurn(s, answer, now).0, t), false)
  {
    assert Coherent(Get(s, t));
    PollersAreDistinct(s);
    if Get(s, t).pc != InPoll(None) {
      NotPolling(s, t);
    }
    ServeRecord(s, 0, answer, t);
    var s1 := Dispatched(s, answer);
    assert Coherent(Get(s1, t));
    ClockRecord(s1, now, t);
  }

  lemma ClockRecord(s1: Vp, now: int, t: Tid)
    requires t != s1.cur && s1.cur == s1.idle && InCall(Get(s1, t)) && !Get(s1, t).state.COND_WAIT?
    ensures CallGoesOn(Get(s1, t), Get(Schedule(Block(CheckClock(s1, now), RUNNABLE, InIdle)), t), false)
  {
    var s2 := s1.(lastClock := now);
    ExpireTouches(s2, now, t);
    ExpireAllMoves(s2, now);
  }

  lemma StepRecord(s: Vp, e: Event, t: Tid)
    requires Inv(s) && Enabled(s, e) && InCall(Get(s, t)) && !(e.EvResume? && t == s.cur)
    ensures CallGoesOn(Get(s, t), Get(Step(s, e), t), e == EvInterrupt(t))
  {
    assert Coherent(Get(s, t));
    assert t != s.cur;
    if e.EvIdle? {
      IdleRecord(s, e.answer, e.now, t);
    } else if e.EvSignal? {
      SignalTouches(s, WaitQ(s, e.cv), e.broadcast, t);
    } else if e.EvExit? {
      if Me(s).term.Some? {
        NotJoining(s, t);
      }
      EndSpares(s, t);
    } else if e.EvInterrupt? {
      InterruptRecord(s, e.t, t);
    } else {
      OthersSpare(s, e, t);
    }
  }

  lemma InterruptRecord(s: Vp, u: Tid, t: Tid)
    requires InCall(Get(s, t)) && !Get(s, t).state.ZOMBIE?
    ensures CallGoesOn(Get(s, t), Get(ThreadInterrupt(s, u).0, t), u == t)
  {
  }

  // ------------------------------------------------------------------- whole runs

  /** Some idle turn of the run reads a clock that is not before `due`. */
  ghost predicate ClockPassed(es: seq<Event>, due: int) {
    exists i :: 0 <= i < |es| && es[i].EvIdle? && due <= es[i].now
  }

  lemma {:induction false} RecordOfRun(s: Vp, es: seq<Event>, t: Tid)
    requires Inv(s) && CanRun(s, es) && StaysIn(s, es, t) && InCall(Get(s, t))
    ensures CallGoesOn(Get(s, t), Get(Run(s, es), t), EvInterrupt(t) in es)
    decreases |es|
  {
    if es != [] {
      StepRecord(s, es[0], t);
      StepKeeps(s, es[0]);
      RecordOfRun(Step(s, es[0]), es[1..], t);
      assert EvInterrupt(t) in es <==> es[0] == EvInterrupt(t) || EvInterrupt(t) in es[1..];
    }
  }

  /** Once reported, the poll stays so. */
  lemma ReportStays(s: Vp, es: seq<Event>, t: Tid)
    requires Inv(s) && CanRun(s, es) && StaysIn(s, es, t) && Reported(s, t)
    ensures Reported(Run(s, es), t)
  {
    RecordOfRun(s, es, t);
  }

  lemma RestOfRun(es: seq<Event>, t: Tid, due: int)
    requires es != [] && EvInterrupt(t) !in es && !ClockPassed(es, due)
    ensures es[0] != EvInterrupt(t) && !(es[0].EvIdle? && due <= es[0].now)
    ensures EvInterrupt(t) !in es[1..] && !ClockPassed(es[1..], due)
  {
    assert es[0] in es;
    assert forall i :: 0 <= i < |es| - 1 ==> es[1..][i] == es[i + 1] && es[i + 1] in es;
  }

  /** Until its deadline has passed, a wait is ended by an interrupt or a report only. */
  lemma {:induction false} WaitsUntilDue(s: Vp, es: seq<Event>, t: Tid, due: int)
    requires Inv(s) && CanRun(s, es) && StaysIn(s, es, t) && Waiting(s, t, due)
    requires EvInterrupt(t) !in es && !ClockPassed(es, due)
    ensures Waiting(Run(s, es), t, due) || Reported(Run(s, es), t)
    decreases |es|
  {
    if es != [] {
      var s1 := Step(s, es[0]);
      RestOfRun(es, t, due);
      StepLeaves(s, es[0], t, due);
      StepKeeps(s, es[0]);
      if Waiting(s1, t, due) {
        WaitsUntilDue(s1, es[1..], t, due);
      } else {
        ReportStays(s1, es[1..], t);
      }
    }
  }

  /** Who goes on waits no longer. */
  lemma GoingOnIsAwake(s: Vp, t: Tid, due: int)
    requires Inv(s) && s.cur == t
    ensures !Waiting(s, t, due)
  {
    if Waiting(s, t, due) {
      assert Coherent(Get(s, t));
      InHeap(s, t, due);
      assert false;
    }
  }

  /** `st_usleep` returns EINTR if and only if an interrupt came before it resumed, and
      otherwise 0, but never before a clock reading that is not before its deadline. */
  lemma SleepResult(s: Vp, es: seq<Event>, t: Tid, due: int)
    requires Inv(s) && CanRun(s, es) && StaysIn(s, es, t) && Run(s, es).cur == t
    requires Waiting(s, t, due) && Get(s, t).pc.InSleep?
    ensures Do(Run(s, es), EvResume).1 == if EvInterrupt(t) in es then Failed(EINTR) else Returned(0)
    ensures EvInterrupt(t) in es || ClockPassed(es, due)
  {
    NoFlagYet(s, t, due);
    RecordOfRun(s, es, t);
    NeverEarly(s, es, t, due);
    SleepReturns(Run(s, es));
  }

  lemma SleepReturns(s: Vp)
    requires Me(s).pc.InSleep?
    ensures Do(s, EvResume).1 == if Me(s).interrupt then Failed(EINTR) else Returned(0)
  {
  }

  lemma PollReturns(s: Vp)
    requires Me(s).pc.InPoll?
    ensures Do(s, EvResume).1 == if Me(s).interrupt then Failed(EINTR)
      else Returned(if Me(s).pc.fired.Some? then CountReady(Me(s).pc.fired.value) else 0)
  {
  }

  /** Who goes on was interrupted or reported on, or its deadline has passed. */
  lemma NeverEarly(s: Vp, es: seq<Event>, t: Tid, due: int)
    requires Inv(s) && CanRun(s, es) && StaysIn(s, es, t) && Run(s, es).cur == t && Waiting(s, t, due)
    ensures EvInterrupt(t) in es || ClockPassed(es, due) || Reported(Run(s, es), t)
  {
    if EvInterrupt(t) !in es && !ClockPassed(es, due) {
      RunKeeps(s, es);
      WaitsUntilDue(s, es, t, due);
      GoingOnIsAwake(Run(s, es), t, due);
    }
  }

  lemma NoFlagYet(s: Vp, t: Tid, due: int)
    requires Inv(s) && Waiting(s, t, due)
    ensures !Get(s, t).interrupt
  {
    assert Coherent(Get(s, t));
    InHeap(s, t, due);
  }

  lemma {:induction false} ReportsCount(pds: seq<PollFd>)
    requires Notified(pds)
    ensures CountReady(pds) > 0
  {
    if pds[0].revents == {} {
      var i :| 0 <= i < |pds| && pds[i].revents != {};
      assert pds[1..][i - 1] == pds[i];
      ReportsCount(pds[1..]);
    }
  }

  /** `st_poll` returns EINTR if and only if an interrupt came before it resumed; a
      positive count if and only if a dispatch reported on it and no interrupt came; and
      otherwise 0, but never before a clock reading that is not before its deadline. */
  lemma PollResult(s: Vp, es: seq<Event>, t: Tid, due: int)
    requires Inv(s) && CanRun(s, es) && StaysIn(s, es, t) && Run(s, es).cur == t
    requires Waiting(s, t, due) && Get(s, t).pc == InPoll(None)
    ensures var r := Do(Run(s, es), EvResume).1;
      if EvInterrupt(t) in es then r == Failed(EINTR)
      else if Reported(Run(s, es), t) then r.Returned? && r.rv > 0
      else r == Returned(0) && ClockPassed(es, due)
  {
    NoFlagYet(s, t, due);
    RecordOfRun(s, es, t);
    NeverEarly(s, es, t, due);
    PollReturns(Run(s, es));
    if Reported(Run(s, es), t) {
      ReportsCount(Get(Run(s, es), t).pc.fired.value);
    }
  }

  /** How a wait begins: the caller is in the heap with its deadline. */
  lemma SleepBegins(s: Vp, us: nat)
    requires Calls(s) && !Me(s).interrupt
    ensures Waiting(USleep(s, Some(us)).0, s.cur, s.lastClock + us) && USleep(s, Some(us)).1 == Switched
  {
    NewEntry(s.sleepQ, Entry(s.cur, s.lastClock + us));
  }

  lemma PollBegins(s: Vp, pds: seq<PollFd>, us: nat)
    requires Calls(s) && !Me(s).interrupt
    ensures Waiting(Poll(s, pds, true, Some(us)).0, s.cur, s.lastClock + us)
  {
    NewEntry(s.sleepQ, Entry(s.cur, s.lastClock + us));
  }

  lemma NewEntry(h: seq<Entry<Tid>>, c: Entry<Tid>)
    ensures c in Insert(h, c)
  {
    InsertMembers(h, c);
    assert c in multiset(h + [c]);
  }
}
