/** The clock and the deadlines, over every run: which reading a deadline counts from,
    that nobody waits on once it has passed, and that a timed wait on a condition
    variable is ended before by a signal or an interrupt only. */
module DeadlineTheorems {
  import opened HeapLayout
  import opened PollSets
  import opened SeqFacts
  import opened Timeouts
  import opened Scheduler
  import opened SchedulerInvariant
  import opened SchedulerSteps
  import opened SchedulerRuns
  import opened SchedulerTheorems
  import opened CondTheorems
  import opened SleepTheorems
  import opened CallTheorems
  import opened IdleTheorems

  // ---------------------------------------------------------------- the clock

  lemma ResumeKeepsClock(s: Vp)
    requires Inv(s)
    ensures Step(s, EvResume).lastClock == s.lastClock
  {
    match Me(s).pc
    case InPoll(_) => PollGoesOn(s);
    case InSleep => SleepGoesOn(s);
    case InCondWait(_, _) => WaitGoesOn(s);
    case InJoin(_, _, _) => JoinGoesOn(s);
    case InLock(_) => LockGoesOnWith(s);
    case InExit => ExitGoesOn(s);
    case _ =>
  }

  /** A turn of the idle thread stores its clock reading; nothing else moves the clock. */
  lemma ClockIsRead(s: Vp, e: Event)
    requires Inv(s) && Enabled(s, e)
    ensures Step(s, e).lastClock == if e.EvIdle? then e.now else s.lastClock
  {
    match e
    case EvPoll(pds, accepted, timeout) => PollCall(s, pds, accepted, timeout);
    case EvSleep(timeout) => SleepCall(s, timeout);
    case EvWait(cv, timeout) => WaitCall(s, cv, timeout);
    case EvSignal(cv, broadcast) => SignalCall(s, cv, broadcast);
    case EvLock(m) => LockCall(s, m);
    case EvUnlock(m) => UnlockCall(s, m);
    case EvExit =>
      if Me(s).term.Some? {
        JoinableExitCall(s);
      } else {
        ExitCall(s);
      }
    case EvJoin(t) => JoinCall(s, t);
    case EvInterrupt(t) => InterruptCall(s, t);
    case EvResume => ResumeKeepsClock(s);
    case EvIdle(answer, now) => var s', late := IdleCall(s, answer, now);
    case _ =>
  }

  /** The reading of the last idle turn of a run, or the one from before. */
  function LastReading(before: int, es: seq<Event>): int {
    if es == [] then before
    else if es[|es| - 1].EvIdle? then es[|es| - 1].now
    else LastReading(before, es[..|es| - 1])
  }

  lemma {:induction false} ReadingAfter(before: int, e: Event, es: seq<Event>)
    ensures LastReading(before, [e] + es) == LastReading(if e.EvIdle? then e.now else before, es)
  {
    if es != [] {
      var n := |es|;
      assert ([e] + es)[n] == es[n - 1] && ([e] + es)[..n] == [e] + es[..n - 1];
      ReadingAfter(before, e, es[..n - 1]);
    } else {
      assert [e] + es == [e] && [e][..0] == [];
    }
  }

  /** Throughout every run the clock is what the last idle turn read. */
  lemma {:induction false} ClockOfRun(s: Vp, es: seq<Event>)
    requires Inv(s) && CanRun(s, es)
    ensures Run(s, es).lastClock == LastReading(s.lastClock, es)
    decreases |es|
  {
    if es != [] {
      ClockIsRead(s, es[0]);
      StepKeeps(s, es[0]);
      ClockOfRun(Step(s, es[0]), es[1..]);
      ReadingAfter(s.lastClock, es[0], es[1..]);
      HeadAndRest(es);
    }
  }

  lemma HeadAndRest(es: seq<Event>)
    requires es != []
    ensures [es[0]] + es[1..] == es
  {
  }

  /** A call with a timeout of `us` microseconds. */
  predicate TimedCall(e: Event, us: nat) {
    || e == EvSleep(Some(us))
    || (e.EvPoll? && e.accepted && e.timeout == Some(us))
    || (e.EvWait? && e.timeout == Some(us))
  }

  /** The heap after a call, as a set of entries: a new one for a call with a timeout. */
  lemma CallSetsDeadline(s: Vp, e: Event, us: nat)
    requires Calls(s) && Enabled(s, e) && TimedCall(e, us) && !Me(s).interrupt
    ensures forall x :: x in Step(s, e).sleepQ <==> x in s.sleepQ || x == Entry(s.cur, s.lastClock + us)
  {
    CallSwitches(s, e, us);
    NewEntry(s, Step(s, e), us);
  }

  lemma NewEntry(s: Vp, s': Vp, us: nat)
    requires DeadlineSet(s, s', Some(us))
    ensures forall x :: x in s'.sleepQ <==> x in s.sleepQ || x == Entry(s.cur, s.lastClock + us)
  {
    forall x ensures x in s'.sleepQ <==> x in s.sleepQ || x == Entry(s.cur, s.lastClock + us) {
      assert x in s'.sleepQ <==> x in multiset(s'.sleepQ);
    }
  }

  lemma CallSwitches(s: Vp, e: Event, us: nat)
    requires Calls(s) && Enabled(s, e) && TimedCall(e, us) && !Me(s).interrupt
    ensures Do(s, e).1 == Switched && DeadlineSet(s, Step(s, e), Some(us))
  {
    match e
    case EvSleep(timeout) => SleepCall(s, timeout);
    case EvPoll(pds, accepted, timeout) => PollCall(s, pds, accepted, timeout);
    case EvWait(cv, timeout) => WaitCall(s, cv, timeout);
  }

  /** Every deadline counts from the reading of the last idle turn. */
  lemma DeadlineOfRun(s: Vp, es: seq<Event>, e: Event, us: nat)
    requires Inv(s) && CanRun(s, es) && Calls(Run(s, es)) && Enabled(Run(s, es), e)
    requires TimedCall(e, us) && !Me(Run(s, es)).interrupt
    ensures Do(Run(s, es), e).1 == Switched
    ensures Entry(Run(s, es).cur, LastReading(s.lastClock, es) + us) in Step(Run(s, es), e).sleepQ
  {
    ClockOfRun(s, es);
    CallSwitches(Run(s, es), e, us);
    CallSetsDeadline(Run(s, es), e, us);
  }

  // ------------------------------------------------ the deadline ends every wait

  lemma OneEntryEach(h: seq<Entry<Tid>>, a: Entry<Tid>, b: Entry<Tid>)
    requires (forall t: Tid :: multiset(Whos(h))[t] <= 1) && a in h && b in h && a.who == b.who
    ensures a == b
  {
    var i :| 0 <= i < |h| && h[i] == a;
    var j :| 0 <= j < |h| && h[j] == b;
    SamePlace(h, i + 1, j + 1);
  }

  /** In a call that may have a timeout. */
  predicate InTimedCall(x: Thread) {
    x.pc.InSleep? || x.pc.InPoll? || x.pc.InCondWait?
  }

  /** `t` waits no longer: it may go on with its call, or does. */
  ghost predicate MayGoOn(s: Vp, t: Tid) {
    InTimedCall(Get(s, t)) && (t in s.runQ || t == s.cur)
  }

  lemma StaysInCall(s: Vp, e: Event, t: Tid)
    requires Inv(s) && Enabled(s, e) && InTimedCall(Get(s, t)) && !(e.EvResume? && t == s.cur)
    ensures InTimedCall(Get(Step(s, e), t))
  {
    if Get(s, t).pc.InCondWait? {
      FateOfStep(s, e, t);
    } else {
      StepRecord(s, e, t);
    }
  }

  /** Whoever is in the heap is in such a call. */
  lemma HeapInCall(s: Vp, t: Tid, due: int)
    requires Inv(s) && Entry(t, due) in s.sleepQ
    ensures InTimedCall(Get(s, t)) && t != s.cur
  {
    InHeap(s, t, due);
    assert Coherent(Get(s, t));
  }

  /** Who is next in line after a turn of the idle thread. */
  lemma TurnLine(s: Vp, s': Vp, w: seq<PollQ>, late: seq<Entry<Tid>>, now: int, t: Tid)
    requires TurnIs(s, s', w, late, now) && (t in Pollers(w) || t in Whos(late))
    ensures t in s'.runQ || t == s'.cur
  {
    var q := Pollers(w) + Whos(late);
    assert t in q;
    var k :| 0 <= k < |q| && q[k] == t;
    assert k > 0 ==> q[1..][k - 1] == t;
  }

  /** A turn of the idle thread that reads a clock not before a deadline takes the thread
      out of the heap. */
  lemma DueLeaves(s: Vp, answer: Answer, now: int, t: Tid, due: int)
    requires Inv(s) && Me(s).pc.InIdle? && Entry(t, due) in s.sleepQ && due <= now
    ensures forall e :: e in Step(s, EvIdle(answer, now)).sleepQ ==> e.who != t
  {
    var s', late := IdleCall(s, answer, now);
    DueIsOut(s, Woken(s.ioQ, answer), now, late, s'.sleepQ, t, due);
  }

  lemma DueIsOut(s: Vp, w: seq<PollQ>, now: int, late: seq<Entry<Tid>>, h': seq<Entry<Tid>>, t: Tid, due: int)
    requires SleepQOk(s) && SplitAt(s.sleepQ, w, now, late, h') && Entry(t, due) in s.sleepQ && due <= now
    ensures forall e :: e in h' ==> e.who != t
  {
    forall e | e in h' ensures e.who != t {
      if e.who == t {
        OneEntryEach(s.sleepQ, e, Entry(t, due));
      }
    }
  }

  /** Who may go on may go on until it does. */
  lemma GoingStays(s: Vp, e: Event, t: Tid)
    requires Inv(s) && Enabled(s, e) && MayGoOn(s, t) && !(e.EvResume? && t == s.cur)
    ensures MayGoOn(Step(s, e), t)
  {
    StaysInCall(s, e, t);
    RunQueueIsFifo(s, e);
    assert t != s.cur;
    var i :| 0 <= i < |s.runQ| && s.runQ[i] == t;
    assert i > 0 ==> s.runQ[1..][i - 1] == t;
  }

  lemma {:induction false} GoingStaysOn(s: Vp, es: seq<Event>, t: Tid)
    requires Inv(s) && CanRun(s, es) && StaysIn(s, es, t) && MayGoOn(s, t)
    ensures MayGoOn(Run(s, es), t)
    decreases |es|
  {
    if es != [] {
      GoingStays(s, es[0], t);
      StepKeeps(s, es[0]);
      GoingStaysOn(Step(s, es[0]), es[1..], t);
    }
  }

  /** The threads of `w` are at the end of the line. */
  lemma SignalLine(s: Vp, s': Vp, w: seq<Tid>, t: Tid, due: int)
    requires Entry(t, due) in s.sleepQ && OutOfHeap(s.sleepQ, s'.sleepQ, w)
    requires s'.runQ == s.runQ + w || RunsNext(Ended(s, w), s', s.runQ + w)
    ensures Entry(t, due) in s'.sleepQ || t in s'.runQ || t == s'.cur
  {
    if t in w {
      var q := s.runQ + w;
      assert t in q;
      var k :| 0 <= k < |q| && q[k] == t;
      assert k > 0 ==> q[1..][k - 1] == t;
    }
  }

  lemma TurnLeaves(s: Vp, answer: Answer, now: int, t: Tid, due: int)
    requires Inv(s) && Me(s).pc.InIdle? && Entry(t, due) in s.sleepQ
    ensures var s' := Step(s, EvIdle(answer, now));
      Entry(t, due) in s'.sleepQ || t in s'.runQ || t == s'.cur
  {
    var s', late := IdleCall(s, answer, now);
    var w := Woken(s.ioQ, answer);
    if t in Pollers(w) {
      TurnLine(s, s', w, late, now, t);
    } else if due <= now {
      InWhos(late, Entry(t, due));
      TurnLine(s, s', w, late, now, t);
    }
  }

  /** Nobody leaves the heap but to go on. */
  lemma EntryStays(s: Vp, e: Event, t: Tid, due: int)
    requires Inv(s) && Enabled(s, e) && Entry(t, due) in s.sleepQ
    ensures Entry(t, due) in Step(s, e).sleepQ || MayGoOn(Step(s, e), t)
  {
    HeapInCall(s, t, due);
    StaysInCall(s, e, t);
    if e.EvIdle? {
      TurnLeaves(s, e.answer, e.now, t, due);
    } else if e.EvSignal? {
      SignalCall(s, e.cv, e.broadcast);
      var w := InState(s, WaitQ(s, e.cv), COND_WAIT);
      SignalLine(s, Step(s, e), if e.broadcast then w else Firsts(w), t, due);
    } else if e.EvExit? {
      ExitEntries(s, t, due);
    } else if e == EvInterrupt(t) {
      InterruptCall(s, t);
      InHeap(s, t, due);
      assert Coherent(Get(s, t));
    } else {
      HeapLeaves(s, e, t, due);
    }
  }

  lemma ExitEntries(s: Vp, t: Tid, due: int)
    requires Calls(s) && Entry(t, due) in s.sleepQ
    ensures var s' := Step(s, EvExit);
      Entry(t, due) in s'.sleepQ || t in s'.runQ || t == s'.cur
  {
    if Me(s).term.Some? {
      JoinableExitCall(s);
      SignalLine(s, Step(s, EvExit), Firsts(InState(s, WaitQ(s, Me(s).term.value), COND_WAIT)), t, due);
    } else {
      ExitCall(s);
    }
  }

  /** Over every run: once an idle turn has read a clock not before its deadline, a thread
      that was in the heap may go on, whatever the others do. */
  lemma {:induction false} DeadlinesAreMet(s: Vp, es: seq<Event>, t: Tid, due: int)
    requires Inv(s) && CanRun(s, es) && StaysIn(s, es, t) && Entry(t, due) in s.sleepQ
    ensures Entry(t, due) in Run(s, es).sleepQ || MayGoOn(Run(s, es), t)
    ensures ClockPassed(es, due) ==> MayGoOn(Run(s, es), t)
    decreases |es|
  {
    if es != [] {
      var s1 := Step(s, es[0]);
      EntryStays(s, es[0], t, due);
      StepKeeps(s, es[0]);
      if es[0].EvIdle? && due <= es[0].now {
        DueLeaves(s, es[0].answer, es[0].now, t, due);
      } else {
        PassedLater(es, due);
      }
      if MayGoOn(s1, t) {
        GoingStaysOn(s1, es[1..], t);
      } else {
        DeadlinesAreMet(s1, es[1..], t, due);
      }
    }
  }

  lemma PassedLater(es: seq<Event>, due: int)
    requires es != [] && !(es[0].EvIdle? && due <= es[0].now)
    ensures ClockPassed(es, due) ==> ClockPassed(es[1..], due)
  {
    if ClockPassed(es, due) {
      var i :| 0 <= i < |es| && es[i].EvIdle? && due <= es[i].now;
      assert es[1..][i - 1] == es[i];
    }
  }

  // ---------------------------------------- a timed wait on a condition variable

  /** `t` is in `st_cond_timedwait`, nobody has woken it, and the heap will at `due`. */
  ghost predicate CondWaiting(s: Vp, t: Tid, due: int) {
    Get(s, t).pc.InCondWait? && Get(s, t).state.COND_WAIT? && Entry(t, due) in s.sleepQ
  }

  /** How a timed wait begins. */
  lemma WaitBegins(s: Vp, cv: Cv, us: nat)
    requires Calls(s) && UserCond(s, cv) && !Me(s).interrupt
    ensures var s' := Step(s, EvWait(cv, Some(us)));
      && CondWaiting(s', s.cur, s.lastClock + us) && Get(s', s.cur).pc.cv == cv
      && WaitQ(s', cv) == WaitQ(s, cv) + [s.cur]
  {
    WaitCall(s, cv, Some(us));
    CallSetsDeadline(s, EvWait(cv, Some(us)), us);
    CallerIsNotNext(s);
  }

  lemma CallerIsNotNext(s: Vp)
    requires Calls(s)
    ensures s.cur !in s.runQ && s.cur != s.idle
  {
    assert multiset(s.runQ)[s.cur] == 0;
  }

  /** Before the deadline only a signal or an interrupt ends a timed wait. */
  lemma StepWaits(s: Vp, e: Event, t: Tid, due: int)
    requires Inv(s) && Enabled(s, e) && CondWaiting(s, t, due) && e != EvInterrupt(t) && !(e.EvIdle? && due <= e.now)
    ensures CondWaiting(Step(s, e), t, due) || SignalledBy(s, e, t)
  {
    var s' := Step(s, e);
    NoFateYet(s, t);
    InHeap(s, t, due);
    assert t != s.cur;
    FateOfStep(s, e, t);
    NotTimedOut(s, e, t, due);
    StepKeeps(s, e);
    EntryStays(s, e, t, due);
    StillWaits(s', t, due);
  }

  lemma NotTimedOut(s: Vp, e: Event, t: Tid, due: int)
    requires SleepQOk(s) && Entry(t, due) in s.sleepQ && !(e.EvIdle? && due <= e.now)
    ensures !TimedOutBy(s, e, t)
  {
    if e.EvIdle? {
      forall d: int | Entry(t, d) in s.sleepQ ensures d == due {
        OneEntryEach(s.sleepQ, Entry(t, d), Entry(t, due));
      }
    }
  }

  /** Without a note, a thread waits and may not go on. */
  lemma StillWaits(s: Vp, t: Tid, due: int)
    requires Inv(s) && Get(s, t).pc.InCondWait? && !Get(s, t).interrupt
    requires Entry(t, due) in s.sleepQ || MayGoOn(s, t)
    ensures CondWaiting(s, t, due) || Get(s, t).pc.woke.BySignal? || Get(s, t).pc.woke.ByTimeout?
  {
    assert Coherent(Get(s, t));
    assert t in s.runQ <==> multiset(s.runQ)[t] > 0;
  }

  /** Over every run: until an idle turn has read a clock not before the deadline, a timed
      wait that is neither signalled nor interrupted goes on. */
  lemma {:induction false} WaitsUntilDeadline(s: Vp, es: seq<Event>, t: Tid, due: int)
    requires Inv(s) && CanRun(s, es) && StaysIn(s, es, t) && CondWaiting(s, t, due)
    requires EvInterrupt(t) !in es && !ClockPassed(es, due) && !SignalledIn(s, es, t)
    ensures CondWaiting(Run(s, es), t, due)
    decreases |es|
  {
    if es != [] {
      RestOfRun(es, t, due);
      StepWaits(s, es[0], t, due);
      StepKeeps(s, es[0]);
      WaitsUntilDeadline(Step(s, es[0]), es[1..], t, due);
    }
  }

  /** The result of a timed wait: EINTR if and only if it was interrupted before it went
      on; otherwise 0 if and only if it was signalled; otherwise ETIME, and then an idle
      turn has read a clock not before the deadline. */
  lemma TimedWaitResult(s: Vp, es: seq<Event>, t: Tid, due: int)
    requires Inv(s) && CanRun(s, es) && StaysIn(s, es, t) && CondWaiting(s, t, due) && Run(s, es).cur == t
    ensures var r := Do(Run(s, es), EvResume).1;
      && r == (if EvInterrupt(t) in es then Failed(EINTR) else if SignalledIn(s, es, t) then Returned(0) else Failed(ETIME))
      && (r == Failed(ETIME) ==> ClockPassed(es, due))
  {
    WaitResult(s, es, t);
    if EvInterrupt(t) !in es && !SignalledIn(s, es, t) && !ClockPassed(es, due) {
      WaitsUntilDeadline(s, es, t, due);
      RunKeeps(s, es);
      GoingOnWaitsNot(Run(s, es), t, due);
    }
  }

  lemma GoingOnWaitsNot(s: Vp, t: Tid, due: int)
    requires Inv(s) && s.cur == t
    ensures !CondWaiting(s, t, due)
  {
    assert Coherent(Get(s, t));
  }
}
