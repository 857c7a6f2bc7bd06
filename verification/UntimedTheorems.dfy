/** What sleeps and polls without a timeout promise, over every run: nobody wakes
    without a cause. */
module UntimedTheorems {
  import opened PollSets
  import opened HeapLayout
  import opened Timeouts
  import opened Scheduler
  import opened SchedulerInvariant
  import opened SchedulerSteps
  import opened SchedulerRuns
  import opened SchedulerTheorems
  import opened CondTheorems
  import opened SleepTheorems

  /** `t` is blocked in `st_usleep` or `st_poll`, and not in the heap. */
  ghost predicate Parked(s: Vp, t: Tid) {
    && (Get(s, t).pc.InSleep? || Get(s, t).pc == InPoll(None))
    && Blocked(Get(s, t)) && !Get(s, t).onSleepQ
  }

  // ------------------------------------------------------------------- one event

  /** A call that switches goes on with a thread of the run queue or the idle one. */
  ghost predicate Picks(s: Vp, r: (Vp, Outcome)) {
    if r.1.Switched? then r.0.cur in s.runQ || r.0.cur == s.idle else r.0.cur == s.cur
  }

  lemma JoinPicks(s: Vp, t: Tid, cv: Cv)
    ensures Picks(s, JoinLoop(s, t, cv)) && Picks(s, JoinResumed(s, t, cv))
  {
    var s1 := CondResumed(s, cv).0;
    assert s1.runQ == s.runQ && s1.cur == s.cur && s1.idle == s.idle;
  }

  lemma ResumePicks(s: Vp)
    ensures Picks(s, Resume(s))
  {
    match Me(s).pc
    case InJoin(t, cv, _) => JoinPicks(s, t, cv);
    case _ =>
  }

  lemma WaitPicks(s: Vp, e: Event)
    requires e.EvPoll? || e.EvSleep? || e.EvWait? || e.EvLock?
    ensures Picks(s, Do(s, e))
  {
  }

  lemma EventPicks(s: Vp, e: Event)
    requires !e.EvIdle? && !e.EvExit? && !e.EvSignal? && !e.EvInterrupt?
    ensures Picks(s, Do(s, e))
  {
    match e
    case EvUnlock(m) => HandOverAppends(s, m, MutexOf(s, m).waitQ);
    case EvResume => ResumePicks(s);
    case EvJoin(t) =>
      if Get(s, t).term.Some? {
        JoinPicks(s, t, Get(s, t).term.value);
      }
    case _ =>
      if e.EvPoll? || e.EvSleep? || e.EvWait? || e.EvLock? {
        WaitPicks(s, e);
      }
  }

  /** Who is blocked is not on the run queue, and is neither the caller nor the idle
      thread. */
  lemma BlockedFacts(s: Vp, t: Tid)
    requires Inv(s) && Parked(s, t)
    ensures t != s.cur && t != s.idle && t !in s.runQ && t in s.thr && !Get(s, t).interrupt
    ensures !Get(s, t).state.COND_WAIT? && !Get(s, t).state.LOCK_WAIT?
  {
    assert Coherent(Get(s, t));
    assert multiset(s.runQ)[t] == 0;
  }

  /** The scheduler does not pick a thread that is blocked. */
  lemma ScheduleParks(s: Vp, t: Tid)
    requires Agrees(s, None) && Blocked(Get(s, t))
    ensures Get(Schedule(s), t) == Get(s, t)
  {
    ScheduleKeeps(s);
  }

  lemma ExitParks(s: Vp, t: Tid)
    requires Calls(s) && Parked(s, t)
    ensures Get(ThreadExit(s).0, t) == Get(s, t)
  {
    BlockedFacts(s, t);
    match Me(s).term
    case Some(cv) =>
      var s1 := Block(s.(active := s.active - 1, zombieQ := s.zombieQ + [s.cur]), ZOMBIE, InExit);
      ExitBlocks(s, cv);
      SignalKeeps(s1, WaitQ(s1, cv), false, None);
      SignalTouches(s1, WaitQ(s1, cv), false, t);
      ScheduleParks(SignalAlong(s1, WaitQ(s1, cv), false), t);
    case None =>
      ExitForGood(s);
      ScheduleParks(With(s.(active := s.active - 1), s.cur, Me(s).(pc := Dead)), t);
  }

  /** A dispatch reports on the poll, or leaves the thread alone. */
  lemma {:induction false} ServeParks(s: Vp, i: nat, answer: Answer, t: Tid)
    ensures var s' := ServeIo(s, i, answer);
      Get(s', t) == Get(s, t) || (Reported(s', t) && !Get(s', t).state.COND_WAIT?)
    decreases |s.ioQ| - i
  {
    if i < |s.ioQ| {
      var pds := FireAll(s.ioQ[i].pds, answer);
      if Notified(pds) {
        ServeParks(WakeIo(s, i, pds), i, answer, t);
      } else {
        ServeParks(KeepIo(s, i, pds), i + 1, answer, t);
      }
    }
  }

  /** The clock moves only threads in the heap. */
  lemma ExpiryParks(s: Vp, now: int, t: Tid)
    requires SleepQOk(s) && !Get(s, t).onSleepQ
    ensures Get(ExpireAll(s, now), t) == Get(s, t)
  {
    ExpireTouches(s, now, t);
    forall due: int ensures Entry(t, due) !in s.sleepQ {
      if Entry(t, due) in s.sleepQ {
        InHeap(s, t, due);
      }
    }
  }

  lemma ClockParks(s: Vp, now: int, t: Tid)
    requires Agrees(s, Some(s.cur)) && !Get(s, t).onSleepQ
    ensures var s' := CheckClock(s, now);
      Get(s', t) == Get(s, t) && Agrees(s', Some(s.cur)) && s'.cur == s.cur && s'.idle == s.idle
  {
    var s1 := s.(lastClock := now);
    SameButQueues(s, s1, Some(s.cur));
    ExpireAllKeeps(s1, now, Some(s.cur));
    ExpireAllAside(s1, now);
    ExpiryParks(s1, now, t);
  }

  lemma TurnParks(s: Vp, t: Tid)
    requires Agrees(s, Some(s.cur)) && s.cur == s.idle && Parked(s, t)
    ensures Get(Schedule(Block(s, RUNNABLE, InIdle)), t) == Get(s, t)
  {
    assert Coherent(Get(s, t));
    IdleBlocks(s);
    ScheduleParks(Block(s, RUNNABLE, InIdle), t);
  }

  /** The rest of an idle turn after the dispatch. */
  lemma RestParks(s1: Vp, now: int, t: Tid)
    requires Agrees(s1, Some(s1.cur)) && s1.cur == s1.idle && t != s1.cur
    requires Parked(s1, t) || (Reported(s1, t) && !Get(s1, t).state.COND_WAIT?)
    ensures var s3 := Schedule(Block(CheckClock(s1, now), RUNNABLE, InIdle));
      Parked(s3, t) || Reported(s3, t)
  {
    if Parked(s1, t) {
      ClockParks(s1, now, t);
      TurnParks(CheckClock(s1, now), t);
    } else {
      ClockRecord(s1, now, t);
    }
  }

  lemma IdleParks(s: Vp, answer: Answer, now: int, t: Tid)
    requires Inv(s) && Me(s).pc.InIdle? && Parked(s, t)
    ensures Parked(IdleTurn(s, answer, now).0, t) || Reported(IdleTurn(s, answer, now).0, t)
  {
    BlockedFacts(s, t);
    ServeParks(s, 0, answer, t);
    var s1 := Dispatched(s, answer);
    RestParks(s1, now, t);
  }

  /** Nothing but an interrupt or a report ends the wait. */
  lemma StepParks(s: Vp, e: Event, t: Tid)
    requires Inv(s) && Enabled(s, e) && Parked(s, t) && e != EvInterrupt(t)
    ensures Parked(Step(s, e), t) || Reported(Step(s, e), t)
  {
    BlockedFacts(s, t);
    if e.EvIdle? {
      IdleParks(s, e.answer, e.now, t);
    } else if e.EvSignal? {
      SignalTouches(s, WaitQ(s, e.cv), e.broadcast, t);
    } else if e.EvExit? {
      ExitParks(s, t);
    } else if e.EvInterrupt? {
      assert Get(Step(s, e), t) == Get(s, t);
    } else {
      OthersPark(s, e, t);
    }
  }

  lemma OthersPark(s: Vp, e: Event, t: Tid)
    requires Inv(s) && Enabled(s, e) && Parked(s, t)
    requires !e.EvIdle? && !e.EvExit? && !e.EvSignal? && !e.EvInterrupt?
    ensures Get(Step(s, e), t) == Get(s, t)
  {
    var s' := Step(s, e);
    BlockedFacts(s, t);
    RecordLeft(s, e, t);
    EventPicks(s, e);
    StepKeeps(s, e);
    assert s'.cur != t;
  }

  // ------------------------------------------------------------------- whole runs

  lemma {:induction false} RunParks(s: Vp, es: seq<Event>, t: Tid)
    requires Inv(s) && CanRun(s, es) && StaysIn(s, es, t) && Parked(s, t) && EvInterrupt(t) !in es
    ensures Parked(Run(s, es), t) || Reported(Run(s, es), t)
    decreases |es|
  {
    if es != [] {
      var s1 := Step(s, es[0]);
      assert es[0] in es && forall i :: 0 <= i < |es| - 1 ==> es[1..][i] == es[i + 1];
      StepParks(s, es[0], t);
      StepKeeps(s, es[0]);
      if Parked(s1, t) {
        RunParks(s1, es[1..], t);
      } else {
        ReportStays(s1, es[1..], t);
      }
    }
  }

  /** Without a timeout `st_usleep` ends with an interrupt only, and returns EINTR. */
  lemma UntimedSleepResult(s: Vp, es: seq<Event>, t: Tid)
    requires Inv(s) && CanRun(s, es) && StaysIn(s, es, t) && Run(s, es).cur == t
    requires Parked(s, t) && Get(s, t).pc.InSleep?
    ensures EvInterrupt(t) in es && Do(Run(s, es), EvResume).1 == Failed(EINTR)
  {
    GoesOnWithCause(s, es, t);
    RecordOfRun(s, es, t);
    SleepReturns(Run(s, es));
  }

  /** Without a timeout `st_poll` ends with an interrupt, and returns EINTR, or with a
      report, and returns a positive count. */
  lemma UntimedPollResult(s: Vp, es: seq<Event>, t: Tid)
    requires Inv(s) && CanRun(s, es) && StaysIn(s, es, t) && Run(s, es).cur == t
    requires Parked(s, t) && Get(s, t).pc == InPoll(None)
    ensures var r := Do(Run(s, es), EvResume).1;
      if EvInterrupt(t) in es then r == Failed(EINTR) else Reported(Run(s, es), t) && r.Returned? && r.rv > 0
  {
    BlockedFacts(s, t);
    GoesOnWithCause(s, es, t);
    RecordOfRun(s, es, t);
    PollReturns(Run(s, es));
    if Reported(Run(s, es), t) {
      ReportsCount(Get(Run(s, es), t).pc.fired.value);
    }
  }

  lemma GoesOnWithCause(s: Vp, es: seq<Event>, t: Tid)
    requires Inv(s) && CanRun(s, es) && StaysIn(s, es, t) && Run(s, es).cur == t && Parked(s, t)
    ensures EvInterrupt(t) in es || Reported(Run(s, es), t)
  {
    if EvInterrupt(t) !in es {
      RunKeeps(s, es);
      RunParks(s, es, t);
    }
  }

  /** How such a wait begins. */
  lemma UntimedSleepBegins(s: Vp)
    requires Calls(s) && !Me(s).interrupt
    ensures Parked(USleep(s, None).0, s.cur) && USleep(s, None).1 == Switched
  {
    SleepBlocks(s, None);
    assert Coherent(Me(s));
    ScheduleParks(Block(s, SUSPENDED, InSleep), s.cur);
  }

  lemma UntimedPollBegins(s: Vp, pds: seq<PollFd>)
    requires Calls(s) && !Me(s).interrupt
    ensures Parked(Poll(s, pds, true, None).0, s.cur) && Poll(s, pds, true, None).1 == Switched
  {
    PollBlocks(s, Strip(pds), None);
    assert Coherent(Me(s));
    ScheduleParks(Block(s.(ioQ := s.ioQ + [PollQ(s.cur, Strip(pds))]), IO_WAIT, InPoll(None)), s.cur);
  }
}
