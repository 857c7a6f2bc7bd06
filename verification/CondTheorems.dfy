/** What a wait on a condition variable returns, over every run. */
module CondTheorems {
  import opened HeapLayout
  import opened PollSets
  import opened SeqFacts
  import opened Timeouts
  import opened Scheduler
  import opened SchedulerInvariant
  import opened SchedulerSteps
  import opened SchedulerRuns
  import opened SchedulerTheorems

  // ------------------------------------------------------- what one signal does

  /** `t` comes first on `q` among the threads that still wait. */
  ghost predicate FirstOn(s: Vp, q: seq<Tid>, t: Tid) {
    exists i :: 0 <= i < |q| && q[i] == t && Get(s, t).state.COND_WAIT?
      && forall j :: 0 <= j < i ==> !Get(s, q[j]).state.COND_WAIT?
  }

  /** The record of a waiting thread after a signal has woken it. */
  function BySignalAwake(x: Thread): Thread {
    Noted(x, BySignal).(state := RUNNABLE, onSleepQ := false)
  }

  lemma FirstOnTail(s: Vp, q: seq<Tid>, t: Tid)
    requires q != [] && !Get(s, q[0]).state.COND_WAIT? && FirstOn(s, q[1..], t)
    ensures FirstOn(s, q, t)
  {
    var i :| 0 <= i < |q| - 1 && q[1..][i] == t && Get(s, t).state.COND_WAIT?
      && forall j :: 0 <= j < i ==> !Get(s, q[1..][j]).state.COND_WAIT?;
    forall j | 0 <= j < i + 1 ensures !Get(s, q[j]).state.COND_WAIT? {
      assert j > 0 ==> q[1..][j - 1] == q[j];
    }
    assert q[i + 1] == t;
  }

  /** A thread is not touched, or it waited on the queue and is woken; by a plain
      signal only if it is the first one that waited. */
  lemma {:induction false} SignalTouches(s: Vp, q: seq<Tid>, broadcast: bool, t: Tid)
    ensures var x' := Get(SignalAlong(s, q, broadcast), t);
      || x' == Get(s, t)
      || (t in q && Get(s, t).state.COND_WAIT? && x' == BySignalAwake(Get(s, t)) && (broadcast || FirstOn(s, q, t)))
    decreases |q|
  {
    if q != [] {
      if Get(s, q[0]).state.COND_WAIT? {
        if broadcast {
          SignalTouches(Signalled(s, q[0]), q[1..], broadcast, t);
        }
      } else {
        SignalTouches(s, q[1..], broadcast, t);
        if FirstOn(s, q[1..], t) {
          FirstOnTail(s, q, t);
        }
      }
    }
  }

  /** A signal on a queue where somebody waits wakes exactly the first that does. */
  lemma {:induction false} SignalWakesFirst(s: Vp, q: seq<Tid>)
    ensures var s' := SignalAlong(s, q, false);
      if exists t: Tid :: FirstOn(s, q, t)
      then (exists t: Tid :: FirstOn(s, q, t) && s'.runQ == s.runQ + [t] && Get(s', t) == BySignalAwake(Get(s, t)))
      else s' == s
  {
    if q != [] {
      if Get(s, q[0]).state.COND_WAIT? {
        assert q[0] == q[0] && FirstOn(s, q, q[0]);
      } else {
        SignalWakesFirst(s, q[1..]);
        forall t: Tid ensures FirstOn(s, q, t) <==> FirstOn(s, q[1..], t) {
          if FirstOn(s, q[1..], t) {
            FirstOnTail(s, q, t);
          }
          if FirstOn(s, q, t) {
            FirstOnRest(s, q, t);
          }
        }
      }
    }
  }

  lemma FirstOnRest(s: Vp, q: seq<Tid>, t: Tid)
    requires q != [] && !Get(s, q[0]).state.COND_WAIT? && FirstOn(s, q, t)
    ensures FirstOn(s, q[1..], t)
  {
    var i :| 0 <= i < |q| && q[i] == t && Get(s, t).state.COND_WAIT?
      && forall j :: 0 <= j < i ==> !Get(s, q[j]).state.COND_WAIT?;
    assert q[1..][i - 1] == t;
    forall j | 0 <= j < i - 1 ensures !Get(s, q[1..][j]).state.COND_WAIT? {
      assert q[1..][j] == q[j + 1];
    }
  }

  // ---------------------------------------------- what the other loops touch

  /** The record of a thread that has been taken off the heap because it was due. */
  function ExpiredAwake(x: Thread, due: int, now: int): Thread {
    Noted(x, ByTimeout(due, now)).(onSleepQ := false, timedOut := x.timedOut || x.state.COND_WAIT?, state := RUNNABLE)
  }

  lemma {:induction false} ExpireTouches(s: Vp, now: int, t: Tid)
    ensures var x' := Get(ExpireAll(s, now), t);
      x' == Get(s, t) || exists due: int :: due <= now && Entry(t, due) in s.sleepQ && x' == ExpiredAwake(Get(s, t), due, now)
    decreases |s.sleepQ|
  {
    if s.sleepQ != [] && At(s.sleepQ, 1).due <= now {
      var root, s1 := At(s.sleepQ, 1), Expire(s, now);
      ExpireTouches(s1, now, t);
      ExpireTouchesStep(s, now, t, Get(ExpireAll(s1, now), t));
    }
  }

  lemma ExpireTouchesStep(s: Vp, now: int, t: Tid, x': Thread)
    requires s.sleepQ != [] && At(s.sleepQ, 1).due <= now
    requires x' == Get(Expire(s, now), t)
      || exists due: int :: due <= now && Entry(t, due) in Expire(s, now).sleepQ && x' == ExpiredAwake(Get(Expire(s, now), t), due, now)
    ensures x' == Get(s, t) || exists due: int :: due <= now && Entry(t, due) in s.sleepQ && x' == ExpiredAwake(Get(s, t), due, now)
  {
    var root, x1 := At(s.sleepQ, 1), Get(Expire(s, now), t);
    assert root in s.sleepQ;
    if root.who == t {
      assert root == Entry(t, root.due);
      assert x1 == ExpiredAwake(Get(s, t), root.due, now);
    } else if x' != x1 {
      var due: int :| due <= now && Entry(t, due) in Expire(s, now).sleepQ && x' == ExpiredAwake(x1, due, now);
      StillThere(s.sleepQ, Entry(t, due));
    }
  }

  lemma StillThere(h: seq<Entry<Tid>>, e: Entry<Tid>)
    requires h != [] && e in Delete(h, 1)
    ensures e in h
  {
    DeleteMembers(h, 1);
    assert e in multiset(Delete(h, 1)) + multiset{At(h, 1)};
  }

  lemma {:induction false} ServeTouches(s: Vp, i: nat, answer: Answer, t: Tid)
    requires forall j :: i <= j < |s.ioQ| ==> s.ioQ[j].thread != t
    ensures Get(ServeIo(s, i, answer), t) == Get(s, t) && ServeIo(s, i, answer).idle == s.idle
    decreases |s.ioQ| - i
  {
    if i < |s.ioQ| {
      var pds := FireAll(s.ioQ[i].pds, answer);
      if Notified(pds) {
        var s1 := WakeIo(s, i, pds);
        assert forall j :: i <= j < |s1.ioQ| ==> s1.ioQ[j] == s.ioQ[j + 1];
        ServeTouches(s1, i, answer, t);
      } else {
        ServeTouches(KeepIo(s, i, pds), i + 1, answer, t);
      }
    }
  }

  /** A dispatch does not take anything off the heap but the threads it wakes. */
  lemma {:induction false} ServeKeepsOthersAsleep(s: Vp, i: nat, answer: Answer, e: Entry<Tid>)
    requires e in ServeIo(s, i, answer).sleepQ
    ensures e in s.sleepQ
    decreases |s.ioQ| - i
  {
    if i < |s.ioQ| {
      var pds := FireAll(s.ioQ[i].pds, answer);
      if Notified(pds) {
        ServeKeepsOthersAsleep(WakeIo(s, i, pds), i, answer, e);
        WithoutIsLess(s.sleepQ, s.ioQ[i].thread, e);
      } else {
        ServeKeepsOthersAsleep(KeepIo(s, i, pds), i + 1, answer, e);
      }
    }
  }

  lemma WithoutIsLess(h: seq<Entry<Tid>>, t: Tid, e: Entry<Tid>)
    ensures e in HeapWithout(h, t) ==> e in h
  {
    var k := Pos(h, t);
    if k > 0 {
      DeleteMembers(h, k);
      assert e in Delete(h, k) ==> e in multiset(Delete(h, k)) + multiset{At(h, k)};
    }
  }

  lemma {:induction false} HandOverTouches(s: Vp, m: Mx, q: seq<Tid>, t: Tid)
    ensures Get(HandOver(s, m, q), t) == Get(s, t) || Get(s, t).state.LOCK_WAIT?
  {
    if q != [] && !Get(s, q[0]).state.LOCK_WAIT? {
      HandOverTouches(s, m, q[1..], t);
    }
  }

  // --------------------------------------------------- why a wait comes to its end

  /** Event `e` is a reason for the note `w` on thread `t`. */
  ghost predicate Cause(s: Vp, e: Event, t: Tid, w: Woke)
    requires Get(s, t).pc.InCondWait?
  {
    match w
    case Waiting => false
    case BySignal => e.EvSignal? && e.cv == Get(s, t).pc.cv && (e.broadcast || FirstOn(s, WaitQ(s, e.cv), t))
    case ByTimeout(due, now) => e.EvIdle? && e.now == now && due <= now && Entry(t, due) in s.sleepQ
    case ByInterrupt => e == EvInterrupt(t)
  }

  /** The record `x'` of the waiting thread `t` after `e`: the same note, or a new
      one with its cause. */
  ghost predicate Follows(s: Vp, e: Event, t: Tid, x': Thread)
    requires Get(s, t).pc.InCondWait?
  {
    var x := Get(s, t);
    && x'.pc.InCondWait? && x'.pc.cv == x.pc.cv
    && (x'.interrupt <==> x.interrupt || e == EvInterrupt(t))
    && (x'.pc.woke == x.pc.woke || (x.pc.woke.Waiting? && Cause(s, e, t, x'.pc.woke)))
  }

  /** Nothing happened to the thread, except that it may have been switched in. */
  ghost predicate Spared(x: Thread, x': Thread) {
    x' == x || x' == x.(state := RUNNING)
  }

  lemma CallsSpare(s: Vp, e: Event, t: Tid)
    requires Enabled(s, e) && t != s.cur && t in s.thr && !Get(s, t).state.ZOMBIE?
    requires !e.EvSignal? && !e.EvIdle? && !e.EvExit? && !e.EvResume? && !e.EvUnlock? && !e.EvInterrupt? && !e.EvJoin?
    ensures Spared(Get(s, t), Get(Step(s, e), t))
  {
    match e
    case EvPoll(pds, accepted, timeout) => PollSpares(s, pds, accepted, timeout, t);
    case EvSleep(timeout) => SleepSpares(s, timeout, t);
    case EvWait(cv, timeout) => WaitSpares(s, cv, timeout, t);
    case EvLock(m) => LockSpares(s, m, t);
    case _ =>
  }

  lemma ScheduleSpares(s: Vp, t: Tid)
    ensures Spared(Get(s, t), Get(Schedule(s), t))
  {
  }

  lemma PollSpares(s: Vp, pds: seq<PollFd>, accepted: bool, timeout: Option<nat>, t: Tid)
    requires t != s.cur
    ensures Spared(Get(s, t), Get(Poll(s, pds, accepted, timeout).0, t))
  {
    ScheduleSpares(Block(AddSleepQ(s.(ioQ := s.ioQ + [PollQ(s.cur, Strip(pds))]), s.cur, timeout), IO_WAIT, InPoll(None)), t);
  }

  lemma SleepSpares(s: Vp, timeout: Option<nat>, t: Tid)
    requires t != s.cur
    ensures Spared(Get(s, t), Get(USleep(s, timeout).0, t))
  {
    ScheduleSpares(Block(AddSleepQ(s, s.cur, timeout), if timeout.Some? then SLEEPING else SUSPENDED, InSleep), t);
  }

  lemma WaitSpares(s: Vp, cv: Cv, timeout: Option<nat>, t: Tid)
    requires t != s.cur
    ensures Spared(Get(s, t), Get(CondTimedWait(s, cv, timeout).0, t))
  {
    ScheduleSpares(Block(AddSleepQ(WithWaitQ(s, cv, WaitQ(s, cv) + [s.cur]), s.cur, timeout), COND_WAIT, InCondWait(cv, Waiting)), t);
  }

  lemma LockSpares(s: Vp, m: Mx, t: Tid)
    requires t != s.cur
    ensures Spared(Get(s, t), Get(MutexLock(s, m).0, t))
  {
    var x := MutexOf(s, m);
    ScheduleSpares(Block(WithMutex(s, m, x.(waitQ := x.waitQ + [s.cur])), LOCK_WAIT, InLock(m)), t);
  }

  lemma JoinSpares(s: Vp, target: Tid, cv: Cv, t: Tid)
    requires t != s.cur && !Get(s, t).state.ZOMBIE?
    ensures Spared(Get(s, t), Get(JoinLoop(s, target, cv).0, t))
  {
  }

  lemma ResumeSpares(s: Vp, t: Tid)
    requires t != s.cur && !Get(s, t).state.ZOMBIE?
    ensures Spared(Get(s, t), Get(Resume(s).0, t))
  {
    match Me(s).pc
    case InJoin(target, cv, _) =>
      var s1 := CondResumed(s, cv).0;
      assert Get(s1, t) == Get(s, t) && s1.cur == s.cur;
      JoinSpares(s1, target, cv, t);
    case _ =>
  }

  /** An exiting thread signals its own variable, which nobody is in a plain wait on. */
  lemma ExitSpares(s: Vp, t: Tid)
    requires Calls(s) && t != s.cur && Get(s, t).pc.InCondWait?
    ensures Spared(Get(s, t), Get(ThreadExit(s).0, t))
  {
    if Me(s).term.Some? {
      JoinersOf(s, s.cur, Me(s).term.value);
    }
    EndSpares(s, t);
  }

  lemma EndSpares(s: Vp, t: Tid)
    requires t != s.cur && (Me(s).term.Some? ==> t !in WaitQ(s, Me(s).term.value))
    ensures Spared(Get(s, t), Get(ThreadExit(s).0, t))
  {
    match Me(s).term
    case Some(cv) =>
      var s' := Block(s.(active := s.active - 1, zombieQ := s.zombieQ + [s.cur]), ZOMBIE, InExit);
      SignalTouches(s', WaitQ(s', cv), false, t);
    case None =>
  }

  lemma SignalFollows(s: Vp, cv: Cv, broadcast: bool, t: Tid)
    requires Calls(s) && UserCond(s, cv) && Get(s, t).pc.InCondWait?
    ensures Follows(s, EvSignal(cv, broadcast), t, Get(CondSignal(s, cv, broadcast).0, t))
  {
    SignalTouches(s, WaitQ(s, cv), broadcast, t);
    assert Coherent(Get(s, t)) && CondOk(s, cv);
    if t in WaitQ(s, cv) {
      assert multiset(WaitQ(s, cv))[t] > 0;
    }
  }

  lemma IdleFollows(s: Vp, answer: Answer, now: int, t: Tid)
    requires Inv(s) && Me(s).pc.InIdle? && Get(s, t).pc.InCondWait?
    ensures Follows(s, EvIdle(answer, now), t, Get(IdleTurn(s, answer, now).0, t))
  {
    var s1 := ServeIo(s, 0, answer).(lastClock := now);
    var s2 := ExpireAll(s1, now);
    assert Coherent(Get(s, t)) && t != s.idle;
    NotPolling(s, t);
    ServeTouches(s, 0, answer, t);
    ServeIoIsDispatch(s, 0, answer);
    ExpireAllMoves(s1, now);
    ExpireTouches(s1, now, t);
    ClockFollows(s, answer, now, t, s1, Get(s2, t));
    SwitchFollows(s, EvIdle(answer, now), t, s2);
  }

  lemma NotPolling(s: Vp, t: Tid)
    requires IoQOk(s) && !OnIo(Get(s, t))
    ensures forall j :: 0 <= j < |s.ioQ| ==> s.ioQ[j].thread != t
  {
    forall j | 0 <= j < |s.ioQ| ensures s.ioQ[j].thread != t {
      assert Pollers(s.ioQ)[j] in multiset(Pollers(s.ioQ));
    }
  }

  lemma ClockFollows(s: Vp, answer: Answer, now: int, t: Tid, s1: Vp, x': Thread)
    requires s1 == ServeIo(s, 0, answer).(lastClock := now)
    requires Get(s, t).pc.InCondWait? && Coherent(Get(s, t))
    requires x' == Get(s, t) || exists due: int :: due <= now && Entry(t, due) in s1.sleepQ && x' == ExpiredAwake(Get(s, t), due, now)
    ensures Follows(s, EvIdle(answer, now), t, x')
  {
    if x' != Get(s, t) {
      var due: int :| due <= now && Entry(t, due) in s1.sleepQ && x' == ExpiredAwake(Get(s, t), due, now);
      ServeKeepsOthersAsleep(s, 0, answer, Entry(t, due));
    }
  }

  lemma SwitchFollows(s: Vp, e: Event, t: Tid, s2: Vp)
    requires Get(s, t).pc.InCondWait? && Follows(s, e, t, Get(s2, t)) && s2.cur != t
    ensures Follows(s, e, t, Get(Schedule(Block(s2, RUNNABLE, InIdle)), t))
  {
  }

  lemma InterruptFollows(s: Vp, target: Tid, t: Tid)
    requires Coherent(Get(s, t)) && Get(s, t).pc.InCondWait?
    ensures Follows(s, EvInterrupt(target), t, Get(ThreadInterrupt(s, target).0, t))
  {
  }

  /** Whatever happens before a waiting thread goes on, its note stays or gets a
      true reason, and only an interrupt sets the interrupt flag. */
  lemma NotesAreTrue(s: Vp, e: Event, t: Tid)
    requires Inv(s) && Enabled(s, e) && Get(s, t).pc.InCondWait? && !(e.EvResume? && t == s.cur)
    ensures Follows(s, e, t, Get(Step(s, e), t))
  {
    WaiterFacts(s, e, t);
    if e.EvSignal? {
      SignalFollows(s, e.cv, e.broadcast, t);
    } else if e.EvIdle? {
      IdleFollows(s, e.answer, e.now, t);
    } else if e.EvInterrupt? {
      InterruptFollows(s, e.t, t);
    } else {
      if e.EvExit? {
        ExitSpares(s, t);
      } else {
        OthersSpare(s, e, t);
      }
      SparedFollows(s, e, t);
    }
  }

  /** Who waits on a condition variable is not the caller, nor on a mutex. */
  lemma WaiterFacts(s: Vp, e: Event, t: Tid)
    requires Inv(s) && Enabled(s, e) && Get(s, t).pc.InCondWait? && !(e.EvResume? && t == s.cur)
    ensures Coherent(Get(s, t)) && t in s.thr && t != s.cur && !Get(s, t).state.ZOMBIE? && !Get(s, t).state.LOCK_WAIT?
    ensures e.EvSignal? || e.EvExit? ==> Calls(s)
    ensures e.EvSignal? ==> UserCond(s, e.cv)
    ensures e.EvIdle? ==> Me(s).pc.InIdle?
  {
    assert Coherent(Get(s, t));
  }

  lemma SparedFollows(s: Vp, e: Event, t: Tid)
    requires Get(s, t).pc.InCondWait? && Spared(Get(s, t), Get(Step(s, e), t)) && !e.EvInterrupt?
    ensures Follows(s, e, t, Get(Step(s, e), t))
  {
  }

  /** All but signals, interrupts, exits and turns of the idle thread leave a waiting
      thread alone. */
  lemma OthersSpare(s: Vp, e: Event, t: Tid)
    requires Enabled(s, e) && t != s.cur && t in s.thr && !Get(s, t).state.ZOMBIE? && !Get(s, t).state.LOCK_WAIT?
    requires !e.EvSignal? && !e.EvIdle? && !e.EvExit? && !e.EvInterrupt?
    ensures Spared(Get(s, t), Get(Step(s, e), t))
  {
    match e
    case EvResume => ResumeSpares(s, t);
    case EvUnlock(m) => HandOverTouches(s, m, MutexOf(s, m).waitQ, t);
    case EvJoin(target) => JoinCallSpares(s, target, t);
    case _ => CallsSpare(s, e, t);
  }

  lemma JoinCallSpares(s: Vp, target: Tid, t: Tid)
    requires t != s.cur && !Get(s, t).state.ZOMBIE?
    ensures Spared(Get(s, t), Get(ThreadJoin(s, target).0, t))
  {
    match Get(s, target).term
    case Some(cv) => JoinSpares(s, target, cv, t);
    case None =>
  }

  // ---------------------------------------------------------- the result of a wait

  /** The event takes `t` out of COND_WAIT. */
  ghost predicate EndsWait(s: Vp, e: Event, t: Tid) {
    Get(s, t).state.COND_WAIT? && !Get(Step(s, e), t).state.COND_WAIT?
  }

  ghost predicate SignalledBy(s: Vp, e: Event, t: Tid) {
    EndsWait(s, e, t) && e.EvSignal?
  }

  ghost predicate TimedOutBy(s: Vp, e: Event, t: Tid) {
    EndsWait(s, e, t) && e.EvIdle? && exists due: int :: due <= e.now && Entry(t, due) in s.sleepQ
  }

  /** Some event of the run is a signal or broadcast that takes `t` out of COND_WAIT. */
  ghost predicate SignalledIn(s: Vp, es: seq<Event>, t: Tid)
    decreases |es|
  {
    es != [] && (SignalledBy(s, es[0], t) || SignalledIn(Step(s, es[0]), es[1..], t))
  }

  /** Some event of the run is a clock check that takes `t` out of COND_WAIT after
      its deadline. */
  ghost predicate TimedOutIn(s: Vp, es: seq<Event>, t: Tid)
    decreases |es|
  {
    es != [] && (TimedOutBy(s, es[0], t) || TimedOutIn(Step(s, es[0]), es[1..], t))
  }

  /** The thread does not go on with its wait during the run. */
  ghost predicate StaysIn(s: Vp, es: seq<Event>, t: Tid)
    decreases |es|
  {
    es == [] || (!(es[0].EvResume? && t == s.cur) && StaysIn(Step(s, es[0]), es[1..], t))
  }

  /** Note and flag after something happened, in terms of what did. */
  ghost predicate Fate(x: Thread, x': Thread, interrupted: bool, signalled: bool, timedOut: bool) {
    && x.pc.InCondWait? && x'.pc.InCondWait?
    && (x'.interrupt <==> x.interrupt || interrupted)
    && (x'.pc.woke.BySignal? <==> x.pc.woke.BySignal? || signalled)
    && (x'.pc.woke.ByTimeout? <==> x.pc.woke.ByTimeout? || timedOut)
  }

  lemma FateOfStep(s: Vp, e: Event, t: Tid)
    requires Inv(s) && Enabled(s, e) && Get(s, t).pc.InCondWait? && !(e.EvResume? && t == s.cur)
    ensures Fate(Get(s, t), Get(Step(s, e), t), e == EvInterrupt(t), SignalledBy(s, e, t), TimedOutBy(s, e, t))
  {
    NotesAreTrue(s, e, t);
    StepKeeps(s, e);
    NotesMatch(s, t);
    NotesMatch(Step(s, e), t);
    FateFrom(s, e, t);
  }

  lemma NotesMatch(s: Vp, t: Tid)
    requires Inv(s) && Get(s, t).pc.InCondWait?
    ensures Get(s, t).pc.woke.Waiting? <==> Get(s, t).state.COND_WAIT?
  {
    assert Coherent(Get(s, t));
  }

  lemma FateFrom(s: Vp, e: Event, t: Tid)
    requires Get(s, t).pc.InCondWait? && Follows(s, e, t, Get(Step(s, e), t))
    requires Get(s, t).pc.woke.Waiting? <==> Get(s, t).state.COND_WAIT?
    requires Get(Step(s, e), t).pc.woke.Waiting? <==> Get(Step(s, e), t).state.COND_WAIT?
    ensures Fate(Get(s, t), Get(Step(s, e), t), e == EvInterrupt(t), SignalledBy(s, e, t), TimedOutBy(s, e, t))
  {
  }

  lemma {:induction false} FateOfWait(s: Vp, es: seq<Event>, t: Tid)
    requires Inv(s) && CanRun(s, es) && StaysIn(s, es, t) && Get(s, t).pc.InCondWait?
    ensures Fate(Get(s, t), Get(Run(s, es), t), EvInterrupt(t) in es, SignalledIn(s, es, t), TimedOutIn(s, es, t))
    decreases |es|
  {
    if es != [] {
      var s1 := Step(s, es[0]);
      FateOfStep(s, es[0], t);
      StepKeeps(s, es[0]);
      FateOfWait(s1, es[1..], t);
      assert EvInterrupt(t) in es <==> es[0] == EvInterrupt(t) || EvInterrupt(t) in es[1..];
    }
  }

  lemma ResultByNote(s: Vp)
    requires Inv(s) && Me(s).pc.InCondWait?
    ensures Do(s, EvResume).1
      == if Me(s).interrupt then Failed(EINTR) else if Me(s).pc.woke.BySignal? then Returned(0) else Failed(ETIME)
    ensures !Me(s).interrupt && !Me(s).pc.woke.BySignal? ==> Me(s).pc.woke.ByTimeout?
  {
    assert Coherent(Me(s));
  }

  /** A wait that blocked returns 0 if and only if a signal or broadcast woke the
      thread and no interrupt arrived before it went on; ETIME only if its deadline
      had passed while it was still waiting; else EINTR. */
  lemma WaitResult(s: Vp, es: seq<Event>, t: Tid)
    requires Inv(s) && CanRun(s, es) && StaysIn(s, es, t)
    requires Get(s, t).pc.InCondWait? && Get(s, t).state.COND_WAIT?
    requires Run(s, es).cur == t
    ensures Do(Run(s, es), EvResume).1
      == if EvInterrupt(t) in es then Failed(EINTR) else if SignalledIn(s, es, t) then Returned(0) else Failed(ETIME)
    ensures Do(Run(s, es), EvResume).1 == Failed(ETIME) ==> TimedOutIn(s, es, t)
  {
    FateOfWait(s, es, t);
    NoFateYet(s, t);
    RunKeeps(s, es);
    ResultByNote(Run(s, es));
  }

  lemma NoFateYet(s: Vp, t: Tid)
    requires Inv(s) && Get(s, t).pc.InCondWait? && Get(s, t).state.COND_WAIT?
    ensures !Get(s, t).interrupt && Get(s, t).pc.woke.Waiting?
  {
    assert Coherent(Get(s, t));
  }
}
