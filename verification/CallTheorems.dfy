/** What each call does at once, in the state that it is made in: its verdict, who is
    queued where, with which deadline, and who runs next. */
module CallTheorems {
  import opened HeapLayout
  import opened PollSets
  import opened SeqFacts
  import opened Timeouts
  import opened Scheduler
  import opened SchedulerInvariant
  import opened SchedulerSteps
  import opened SchedulerRuns
  import opened SchedulerTheorems
  import opened CondTheorems
  import opened SleepTheorems
  import opened SchedulerSync

  // ------------------------------------------------------------- how to say it

  /** A pending interrupt is taken by the caller, and nothing else happens. */
  ghost predicate InterruptTaken(s: Vp, s': Vp) {
    && s' == s.(thr := s'.thr)
    && forall t: Tid :: Get(s', t) == if t == s.cur then Me(s).(interrupt := false) else Get(s, t)
  }

  /** With the run queue `q` and the records of `b`, the head of the queue runs next, or
      the idle thread if there is none. */
  ghost predicate RunsNext(b: Vp, s': Vp, q: seq<Tid>) {
    && (if q == [] then s'.cur == b.idle && s'.runQ == [] else s'.cur == q[0] && s'.runQ == q[1..])
    && forall t: Tid :: Get(s', t) == if t == s'.cur then Get(b, t).(state := RUNNING) else Get(b, t)
  }

  /** The caller gives way with the record `x`; nobody else is touched but the one that
      runs next. */
  ghost predicate GaveWay(s: Vp, s': Vp, x: Thread) {
    RunsNext(With(s, s.cur, x), s', s.runQ)
  }

  /** The caller is in the heap until the last clock reading plus the timeout, if there
      is one. */
  ghost predicate DeadlineSet(s: Vp, s': Vp, timeout: Option<nat>) {
    if timeout.None? then s'.sleepQ == s.sleepQ
    else multiset(s'.sleepQ) == multiset(s.sleepQ) + multiset{Entry(s.cur, s.lastClock + timeout.value)}
  }

  /** Those of `q` that are in a state, in their order. */
  function InState(s: Vp, q: seq<Tid>, state: State): seq<Tid> {
    if q == [] then [] else (if Get(s, q[0]).state == state then [q[0]] else []) + InState(s, q[1..], state)
  }

  function Firsts<T>(q: seq<T>): seq<T> {
    if q == [] then [] else [q[0]]
  }

  /** The heap has lost the entries of the threads `w`, and no other. */
  ghost predicate OutOfHeap(h: seq<Entry<Tid>>, h': seq<Entry<Tid>>, w: seq<Tid>) {
    forall e :: e in h' <==> e in h && e.who !in w
  }

  // ------------------------------------------------------------------- sched.c

  lemma NewDeadline(s: Vp, timeout: Option<nat>)
    ensures DeadlineSet(s, AddSleepQ(s, s.cur, timeout), timeout)
  {
    if timeout.Some? {
      InsertMembers(s.sleepQ, Entry(s.cur, s.lastClock + timeout.value));
      assert multiset(s.sleepQ + [Entry(s.cur, s.lastClock + timeout.value)])
        == multiset(s.sleepQ) + multiset{Entry(s.cur, s.lastClock + timeout.value)};
    }
  }

  lemma CallerIsAwake(s: Vp)
    requires Calls(s)
    ensures !Me(s).onSleepQ
  {
    assert Coherent(Me(s));
  }

  lemma SwitchRunsNext(b: Vp)
    ensures var s' := Schedule(b);
      RunsNext(b, s', b.runQ) && s' == b.(thr := s'.thr, cur := s'.cur, runQ := s'.runQ)
  {
  }

  /** The caller goes into the heap and gives way; `s0` is the state with its place on
      another queue. */
  lemma GivesWay(s: Vp, s0: Vp, timeout: Option<nat>, state: State, pc: Point)
    requires s0 == s.(ioQ := s0.ioQ, conds := s0.conds, mutexes := s0.mutexes) && !Me(s).onSleepQ
    ensures var s' := Schedule(Block(AddSleepQ(s0, s.cur, timeout), state, pc));
      && DeadlineSet(s, s', timeout)
      && GaveWay(s, s', Me(s).(state := state, onSleepQ := timeout.Some?, pc := pc))
      && s' == s0.(thr := s'.thr, cur := s'.cur, runQ := s'.runQ, sleepQ := s'.sleepQ)
  {
    var b := Block(AddSleepQ(s0, s.cur, timeout), state, pc);
    NewDeadline(s0, timeout);
    SwitchRunsNext(b);
    SameRecords(b, With(s, s.cur, Me(s).(state := state, onSleepQ := timeout.Some?, pc := pc)), Schedule(b), s.runQ);
  }

  /** The caller gives way for good. */
  lemma GivesUp(s: Vp, s0: Vp, x: Thread)
    requires s0 == s.(active := s0.active, conds := s0.conds)
    ensures var s' := Schedule(With(s0, s.cur, x));
      GaveWay(s, s', x) && s' == s0.(thr := s'.thr, cur := s'.cur, runQ := s'.runQ)
  {
    var b := With(s0, s.cur, x);
    SwitchRunsNext(b);
    SameRecords(b, With(s, s.cur, x), Schedule(b), s.runQ);
  }

  lemma SameRecords(b: Vp, c: Vp, s': Vp, q: seq<Tid>)
    requires RunsNext(b, s', q) && b.idle == c.idle && forall t: Tid :: Get(b, t) == Get(c, t)
    ensures RunsNext(c, s', q)
  {
  }

  /** `st_poll`. */
  lemma PollCall(s: Vp, pds: seq<PollFd>, accepted: bool, timeout: Option<nat>)
    requires Calls(s)
    ensures var (s', r) := Do(s, EvPoll(pds, accepted, timeout));
      if Me(s).interrupt then r == Failed(EINTR) && InterruptTaken(s, s')
      else if !accepted then r == Failed(REFUSED) && s' == s
      else
        && r == Switched && DeadlineSet(s, s', timeout) && s'.ioQ == s.ioQ + [PollQ(s.cur, Strip(pds))]
        && GaveWay(s, s', Me(s).(state := IO_WAIT, onSleepQ := timeout.Some?, pc := InPoll(None)))
        && s' == s.(thr := s'.thr, cur := s'.cur, runQ := s'.runQ, sleepQ := s'.sleepQ, ioQ := s'.ioQ)
  {
    CallerIsAwake(s);
    GivesWay(s, s.(ioQ := s.ioQ + [PollQ(s.cur, Strip(pds))]), timeout, IO_WAIT, InPoll(None));
  }

  /** `st_usleep`. */
  lemma SleepCall(s: Vp, timeout: Option<nat>)
    requires Calls(s)
    ensures var (s', r) := Do(s, EvSleep(timeout));
      if Me(s).interrupt then r == Failed(EINTR) && InterruptTaken(s, s')
      else
        && r == Switched && DeadlineSet(s, s', timeout)
        && GaveWay(s, s', Me(s).(state := if timeout.Some? then SLEEPING else SUSPENDED, onSleepQ := timeout.Some?, pc := InSleep))
        && s' == s.(thr := s'.thr, cur := s'.cur, runQ := s'.runQ, sleepQ := s'.sleepQ)
  {
    CallerIsAwake(s);
    GivesWay(s, s, timeout, if timeout.Some? then SLEEPING else SUSPENDED, InSleep);
  }

  /** `st_cond_timedwait`. */
  lemma WaitCall(s: Vp, cv: Cv, timeout: Option<nat>)
    requires Calls(s) && UserCond(s, cv)
    ensures var (s', r) := Do(s, EvWait(cv, timeout));
      if Me(s).interrupt then r == Failed(EINTR) && InterruptTaken(s, s')
      else
        && r == Switched && DeadlineSet(s, s', timeout)
        && s'.conds == s.conds[cv := Cond(WaitQ(s, cv) + [s.cur], None)]
        && GaveWay(s, s', Me(s).(state := COND_WAIT, onSleepQ := timeout.Some?, pc := InCondWait(cv, Waiting)))
        && s' == s.(thr := s'.thr, cur := s'.cur, runQ := s'.runQ, sleepQ := s'.sleepQ, conds := s'.conds)
  {
    CallerIsAwake(s);
    GivesWay(s, WithWaitQ(s, cv, WaitQ(s, cv) + [s.cur]), timeout, COND_WAIT, InCondWait(cv, Waiting));
  }

  /** `st_mutex_lock`. */
  lemma LockCall(s: Vp, m: Mx)
    requires Calls(s) && m in s.mutexes
    ensures var (s', r) := Do(s, EvLock(m)); var Mutex(owner, q) := s.mutexes[m];
      if Me(s).interrupt then r == Failed(EINTR) && InterruptTaken(s, s')
      else if owner == None then r == Returned(0) && s' == s.(mutexes := s.mutexes[m := Mutex(Some(s.cur), q)])
      else if owner == Some(s.cur) then r == Failed(EDEADLK) && s' == s
      else
        && r == Switched && s'.mutexes == s.mutexes[m := Mutex(owner, q + [s.cur])]
        && GaveWay(s, s', Me(s).(state := LOCK_WAIT, pc := InLock(m)))
        && s' == s.(thr := s'.thr, cur := s'.cur, runQ := s'.runQ, mutexes := s'.mutexes)
  {
    CallerIsAwake(s);
    var Mutex(owner, q) := s.mutexes[m];
    GivesWay(s, s.(mutexes := s.mutexes[m := Mutex(owner, q + [s.cur])]), None, LOCK_WAIT, InLock(m));
  }

  /** `st_mutex_trylock`. */
  lemma TryLockCall(s: Vp, m: Mx)
    requires Calls(s) && m in s.mutexes
    ensures var (s', r) := Do(s, EvTryLock(m)); var Mutex(owner, q) := s.mutexes[m];
      if owner == None then r == Returned(0) && s' == s.(mutexes := s.mutexes[m := Mutex(Some(s.cur), q)])
      else r == Failed(EBUSY) && s' == s
  {
  }

  /** `st_mutex_unlock`: the mutex goes to the first thread on its queue that is still in
      LOCK_WAIT, which becomes runnable, and is free if there is none. */
  lemma UnlockCall(s: Vp, m: Mx)
    requires Calls(s) && m in s.mutexes
    ensures var (s', r) := Do(s, EvUnlock(m));
      if s.mutexes[m].owner != Some(s.cur) then r == Failed(EPERM) && s' == s
      else r == Returned(0) && GoesTo(s, s', m, Firsts(InState(s, s.mutexes[m].waitQ, LOCK_WAIT)))
  {
    HandsOver(s, m, s.mutexes[m].waitQ);
    UnlockIs(s, m, HandOver(s, m, s.mutexes[m].waitQ));
  }

  lemma UnlockIs(s: Vp, m: Mx, s1: Vp)
    requires Calls(s) && m in s.mutexes && s1 == HandOver(s, m, s.mutexes[m].waitQ)
    ensures Do(s, EvUnlock(m))
      == if s.mutexes[m].owner != Some(s.cur) then (s, Failed(EPERM)) else (s1, Returned(0))
  {
  }

  /** The mutex goes to the thread `next`, if there is one, which may run then. */
  ghost predicate GoesTo(s: Vp, s': Vp, m: Mx, next: seq<Tid>)
    requires m in s.mutexes
  {
    && s'.runQ == s.runQ + next
    && s'.mutexes == s.mutexes[m := Mutex(if next == [] then None else Some(next[0]), s.mutexes[m].waitQ)]
    && (forall t: Tid :: Get(s', t) == if t in next then Get(s, t).(state := RUNNABLE) else Get(s, t))
    && s' == s.(thr := s'.thr, runQ := s'.runQ, mutexes := s'.mutexes)
  }

  lemma {:induction false} HandsOver(s: Vp, m: Mx, q: seq<Tid>)
    requires m in s.mutexes
    ensures GoesTo(s, HandOver(s, m, q), m, Firsts(InState(s, q, LOCK_WAIT)))
  {
    if q != [] {
      if Get(s, q[0]).state.LOCK_WAIT? {
        OneNext(s, m, q[0]);
      } else {
        HandsOver(s, m, q[1..]);
      }
    }
  }

  lemma OneNext(s: Vp, m: Mx, t: Tid)
    requires m in s.mutexes
    ensures GoesTo(s, MakeRunnable(WithMutex(s, m, MutexOf(s, m).(owner := Some(t))), t), m, [t])
  {
  }

  // ---------------------------------------------------------------- signals

  /** The record of a thread that has been woken, with the note `w` if it waited on a
      condition variable. */
  function Roused(x: Thread, w: Woke): Thread {
    x.(state := RUNNABLE, onSleepQ := false, pc :=
      match x.pc
      case InCondWait(cv, _) => InCondWait(cv, w)
      case InJoin(target, cv, _) => InJoin(target, cv, w)
      case other => other)
  }

  /** The threads `w`, which waited, are runnable at the tail of the run queue, in this
      order, and out of the heap; nobody else is touched. */
  ghost predicate Signals(s: Vp, s': Vp, w: seq<Tid>) {
    && s'.runQ == s.runQ + w && OutOfHeap(s.sleepQ, s'.sleepQ, w)
    && (forall t: Tid :: Get(s', t) == if t in w then Roused(Get(s, t), BySignal) else Get(s, t))
    && s' == s.(thr := s'.thr, runQ := s'.runQ, sleepQ := s'.sleepQ)
  }

  /** `_st_cond_signal`: a signal wakes the first thread on the queue that still waits, a
      broadcast all that do, in queue order. */
  lemma SignalCall(s: Vp, cv: Cv, broadcast: bool)
    requires Calls(s) && UserCond(s, cv)
    ensures var (s', r) := Do(s, EvSignal(cv, broadcast)); var w := InState(s, WaitQ(s, cv), COND_WAIT);
      r == Returned(0) && Signals(s, s', if broadcast then w else Firsts(w))
  {
    QueueIsDistinct(s, cv);
    if broadcast {
      BroadcastRouses(s, WaitQ(s, cv));
    } else {
      SignalRouses(s, WaitQ(s, cv));
    }
  }

  ghost predicate Distinct(q: seq<Tid>) {
    forall i, j :: 0 <= i < j < |q| ==> q[i] != q[j]
  }

  lemma QueueIsDistinct(s: Vp, cv: Cv)
    requires ObjectsOk(s)
    ensures Distinct(WaitQ(s, cv))
  {
    var q := WaitQ(s, cv);
    assert CondOk(s, cv);
    forall i, j | 0 <= i < j < |q| ensures q[i] != q[j] {
      if q[i] == q[j] {
        CountsTwice(q, i, j);
      }
    }
  }

  lemma {:induction false} InStateMembers(s: Vp, q: seq<Tid>, state: State)
    ensures forall t :: t in InState(s, q, state) <==> t in q && Get(s, t).state == state
  {
    if q != [] {
      InStateMembers(s, q[1..], state);
      assert forall t :: t in q <==> t == q[0] || t in q[1..];
    }
  }

  lemma {:induction false} SameInState(s: Vp, s': Vp, q: seq<Tid>, state: State)
    requires forall t :: t in q ==> Get(s', t).state == Get(s, t).state
    ensures InState(s', q, state) == InState(s, q, state)
  {
    if q != [] {
      SameInState(s, s', q[1..], state);
    }
  }

  lemma WhoCounts(h: seq<Entry<Tid>>, e: Entry<Tid>)
    requires e in h
    ensures multiset(Whos(h))[e.who] > 0
  {
    var i :| 0 <= i < |h| && h[i] == e;
    assert Whos(h)[i] == e.who;
  }

  /** Waking one thread takes its entry off the heap, if it has one. */
  lemma WakeLeavesHeap(s: Vp, t: Tid)
    requires SleepQOk(s)
    ensures OutOfHeap(s.sleepQ, if Get(s, t).onSleepQ then HeapWithout(s.sleepQ, t) else s.sleepQ, [t])
  {
    var h := s.sleepQ;
    var h' := if Get(s, t).onSleepQ then HeapWithout(h, t) else h;
    PosFinds(h, t);
    if Get(s, t).onSleepQ {
      DeleteCounts(h, Pos(h, t));
    }
    forall e ensures e in h' <==> e in h && e.who !in [t] {
      if e in h' {
        WhoCounts(h', e);
        WithoutIsLess(h, t, e);
      }
      if e in h && e.who != t {
        WithoutKeeps(h, t, e);
      }
    }
  }

  lemma OneRoused(s: Vp, t: Tid)
    requires SleepQOk(s) && Get(s, t).state.COND_WAIT?
    ensures Signals(s, Signalled(s, t), [t])
  {
    var s' := Signalled(s, t);
    WakeLeavesHeap(s, t);
    assert s'.sleepQ == if Get(s, t).onSleepQ then HeapWithout(s.sleepQ, t) else s.sleepQ;
    RousedRecord(s, t);
  }

  lemma RousedRecord(s: Vp, t: Tid)
    requires Get(s, t).state.COND_WAIT?
    ensures var s' := Signalled(s, t);
      && (forall u: Tid :: Get(s', u) == if u == t then Roused(Get(s, u), BySignal) else Get(s, u))
      && s' == s.(thr := s'.thr, runQ := s.runQ + [t], sleepQ := s'.sleepQ)
  {
  }

  lemma RousedBoth(s: Vp, s1: Vp, s2: Vp, t: Tid, w: seq<Tid>)
    requires Signals(s, s1, [t]) && Signals(s1, s2, w) && t !in w
    ensures Signals(s, s2, [t] + w)
  {
    Associates(s.runQ, [t], w);
  }

  /** The heap stays in order when a thread is taken off it, with its flag. */
  lemma HeapLosesOne(s: Vp, s': Vp, t: Tid)
    requires SleepQOk(s) && (forall u: Tid :: u != t ==> Get(s', u) == Get(s, u)) && !Get(s', t).onSleepQ
    requires s'.sleepQ == if Get(s, t).onSleepQ then HeapWithout(s.sleepQ, t) else s.sleepQ
    ensures SleepQOk(s')
  {
    if Get(s, t).onSleepQ {
      PosFinds(s.sleepQ, t);
      DeleteOrders(s.sleepQ, Pos(s.sleepQ, t));
      DeleteCounts(s.sleepQ, Pos(s.sleepQ, t));
    }
  }

  lemma RouseTurn(s: Vp, q: seq<Tid>) returns (s1: Vp)
    requires q != [] && SleepQOk(s) && Distinct(q) && Get(s, q[0]).state.COND_WAIT?
    ensures SignalAlong(s, q, true) == SignalAlong(s1, q[1..], true)
    ensures SleepQOk(s1) && Signals(s, s1, [q[0]]) && InState(s1, q[1..], COND_WAIT) == InState(s, q[1..], COND_WAIT)
    ensures q[0] !in InState(s, q[1..], COND_WAIT)
  {
    s1 := Signalled(s, q[0]);
    OneRoused(s, q[0]);
    assert q[0] !in q[1..];
    SameInState(s, s1, q[1..], COND_WAIT);
    InStateMembers(s, q[1..], COND_WAIT);
    HeapLosesOne(s, s1, q[0]);
  }

  lemma {:induction false} BroadcastRouses(s: Vp, q: seq<Tid>)
    requires SleepQOk(s) && Distinct(q)
    ensures Signals(s, SignalAlong(s, q, true), InState(s, q, COND_WAIT))
    decreases |q|
  {
    if q != [] {
      var rest := InState(s, q[1..], COND_WAIT);
      assert Distinct(q[1..]);
      if Get(s, q[0]).state.COND_WAIT? {
        var s1 := RouseTurn(s, q);
        BroadcastRouses(s1, q[1..]);
        RousedBoth(s, s1, SignalAlong(s, q, true), q[0], rest);
        assert InState(s, q, COND_WAIT) == [q[0]] + rest;
      } else {
        assert InState(s, q, COND_WAIT) == rest && SignalAlong(s, q, true) == SignalAlong(s, q[1..], true);
        BroadcastRouses(s, q[1..]);
      }
    }
  }

  lemma {:induction false} SignalRouses(s: Vp, q: seq<Tid>)
    requires SleepQOk(s)
    ensures Signals(s, SignalAlong(s, q, false), Firsts(InState(s, q, COND_WAIT)))
    decreases |q|
  {
    if q != [] {
      if Get(s, q[0]).state.COND_WAIT? {
        OneRoused(s, q[0]);
      } else {
        SignalRouses(s, q[1..]);
      }
    }
  }

  // ---------------------------------------------- threads: create, exit, join

  /** `st_thread_create`: a new thread at the tail of the run queue, with a termination
      variable if it is joinable. */
  lemma CreateCall(s: Vp, t: Tid, term: Option<Cv>)
    requires Calls(s) && t !in s.thr
    ensures var (s', r) := Do(s, EvCreate(t, term));
      && r == Returned(t) && s'.runQ == s.runQ + [t] && s'.active == s.active + 1
      && s'.thr == s.thr[t := Thread(RUNNABLE, false, false, false, term, User)]
      && s'.conds == (if term.Some? then s.conds[term.value := Cond([], Some(t))] else s.conds)
      && s' == s.(thr := s'.thr, runQ := s'.runQ, active := s'.active, conds := s'.conds)
  {
  }

  /** `st_thread_exit` of a thread that cannot be joined: it is gone. */
  lemma ExitCall(s: Vp)
    requires Calls(s) && Me(s).term.None?
    ensures var (s', r) := Do(s, EvExit);
      && r == Switched && s'.active == s.active - 1 && GaveWay(s, s', Me(s).(pc := Dead))
      && s' == s.(thr := s'.thr, cur := s'.cur, runQ := s'.runQ, active := s'.active)
  {
    GivesUp(s, s.(active := s.active - 1), Me(s).(pc := Dead));
  }

  /** The caller is a zombie until it is joined; who waits for its end on `cv` is
      runnable. */
  ghost predicate EndsAsZombie(s: Vp, s': Vp, cv: Cv) {
    var w := Firsts(InState(s, WaitQ(s, cv), COND_WAIT));
    && s'.active == s.active - 1 && s'.zombieQ == s.zombieQ + [s.cur]
    && OutOfHeap(s.sleepQ, s'.sleepQ, w) && RunsNext(Ended(s, w), s', s.runQ + w)
    && s' == s.(thr := s'.thr, cur := s'.cur, runQ := s'.runQ, sleepQ := s'.sleepQ, zombieQ := s'.zombieQ, active := s'.active)
  }

  /** `st_thread_exit` of one that can. */
  lemma JoinableExitCall(s: Vp)
    requires Calls(s) && Me(s).term.Some?
    ensures Do(s, EvExit).1 == Switched && EndsAsZombie(s, Do(s, EvExit).0, Me(s).term.value)
  {
    CallerIsAwake(s);
    CallerWaitsNot(s, Me(s).term.value);
    JoinableExit(s, Me(s).term.value);
  }

  lemma JoinableExit(s: Vp, cv: Cv)
    requires Me(s).term == Some(cv) && SleepQOk(s) && !Me(s).onSleepQ && s.cur !in WaitQ(s, cv)
    ensures ThreadExit(s).1 == Switched && EndsAsZombie(s, ThreadExit(s).0, cv)
  {
    var q, b := WaitQ(s, cv), Block(s.(active := s.active - 1, zombieQ := s.zombieQ + [s.cur]), ZOMBIE, InExit);
    assert SleepQOk(b);
    SignalRouses(b, q);
    SameInState(s, b, q, COND_WAIT);
    InStateMembers(s, q, COND_WAIT);
    EndsWith(s, b, SignalAlong(b, q, false), Firsts(InState(s, q, COND_WAIT)));
  }

  lemma EndsWith(s: Vp, b: Vp, b': Vp, w: seq<Tid>)
    requires b == Block(s.(active := s.active - 1, zombieQ := s.zombieQ + [s.cur]), ZOMBIE, InExit)
    requires Signals(b, b', w) && |w| <= 1 && s.cur !in w
    ensures var s' := Schedule(b');
      && OutOfHeap(s.sleepQ, s'.sleepQ, w) && RunsNext(Ended(s, w), s', s.runQ + w)
      && s' == b.(thr := s'.thr, cur := s'.cur, runQ := s'.runQ, sleepQ := s'.sleepQ)
  {
    SwitchRunsNext(b');
    SameRecords(b', Ended(s, w), Schedule(b'), b'.runQ);
  }

  /** The records after the exit of the caller: a zombie, and the joiner `w` awake. */
  function Ended(s: Vp, w: seq<Tid>): Vp {
    var b := With(s, s.cur, Me(s).(state := ZOMBIE, pc := InExit));
    if w == [] then b else With(b, w[0], Roused(Get(s, w[0]), BySignal))
  }

  lemma CallerWaitsNot(s: Vp, cv: Cv)
    requires Calls(s)
    ensures s.cur !in WaitQ(s, cv)
  {
    assert CondOk(s, cv);
    assert multiset(WaitQ(s, cv))[s.cur] == 0;
  }

  /** `st_thread_join`: only a joinable thread other than the caller, for which nobody
      waits yet, can be joined; a zombie at once, any other after a wait. */
  lemma JoinCall(s: Vp, t: Tid)
    requires Calls(s) && Unjoined(Get(s, t))
    ensures var (s', r) := Do(s, EvJoin(t)); var x := Get(s, t);
      if x.term.None? || (t != s.cur && WaitQ(s, x.term.value) != []) then r == Failed(EINVAL) && s' == s
      else if t == s.cur then r == Failed(EDEADLK) && s' == s
      else if x.state.ZOMBIE? then r == Returned(0) && Collected(s, s', t)
      else if Me(s).interrupt then r == Failed(EINTR) && InterruptTaken(s, s')
      else
        && r == Switched && s'.conds == s.conds[x.term.value := Cond([s.cur], Some(t))]
        && GaveWay(s, s', Me(s).(state := COND_WAIT, pc := InJoin(t, x.term.value, Waiting)))
        && s' == s.(thr := s'.thr, cur := s'.cur, runQ := s'.runQ, conds := s'.conds)
  {
    CallerIsAwake(s);
    if Get(s, t).term.Some? {
      var cv := Get(s, t).term.value;
      TermFacts(s, t);
      if WaitQ(s, cv) == [] && !Get(s, t).state.ZOMBIE? && !Me(s).interrupt {
        JoinWaits(s, t, cv);
      }
    }
  }

  lemma JoinWaits(s: Vp, t: Tid, cv: Cv)
    requires !Me(s).onSleepQ && !Me(s).interrupt && !Get(s, t).state.ZOMBIE? && cv in s.conds && s.conds[cv] == Cond([], Some(t))
    ensures var (s', r) := JoinLoop(s, t, cv);
      && r == Switched && s'.conds == s.conds[cv := Cond([s.cur], Some(t))]
      && GaveWay(s, s', Me(s).(state := COND_WAIT, pc := InJoin(t, cv, Waiting)))
      && s' == s.(thr := s'.thr, cur := s'.cur, runQ := s'.runQ, conds := s'.conds)
  {
    assert [] + [s.cur] == [s.cur];
    GivesWay(s, s.(conds := s.conds[cv := Cond([s.cur], Some(t))]), None, COND_WAIT, InJoin(t, cv, Waiting));
  }

  lemma TermFacts(s: Vp, t: Tid)
    requires TermOk(s) && Get(s, t).term.Some?
    ensures var cv := Get(s, t).term.value; cv in s.conds && s.conds[cv].termOf == Some(t)
  {
  }

  /** The zombie `t` is off the zombie queue and may go on to its end. */
  ghost predicate Collected(s: Vp, s': Vp, t: Tid) {
    && s'.runQ == s.runQ + [t] && s'.zombieQ == Without(s.zombieQ, t)
    && (forall u: Tid :: Get(s', u) == if u == t then Get(s, u).(state := RUNNABLE) else Get(s, u))
    && s' == s.(thr := s'.thr, runQ := s'.runQ, zombieQ := s'.zombieQ)
  }

  /** `st_thread_interrupt`: a thread that runs or may run is flagged, a zombie is left
      alone, and whoever waits, for whatever it is, is flagged and becomes runnable. */
  lemma InterruptCall(s: Vp, t: Tid)
    requires Calls(s) && Enabled(s, EvInterrupt(t))
    ensures var (s', r) := Do(s, EvInterrupt(t)); var x := Get(s, t);
      && r == Returned(0)
      && if x.state.ZOMBIE? then s' == s
         else if t == s.cur || x.state.RUNNABLE? then s' == s.(thr := s.thr[t := x.(interrupt := true)])
         else
           && s'.runQ == s.runQ + [t] && OutOfHeap(s.sleepQ, s'.sleepQ, [t])
           && s'.thr == s.thr[t := Roused(x, ByInterrupt).(interrupt := true)]
           && s' == s.(thr := s'.thr, runQ := s'.runQ, sleepQ := s'.sleepQ)
  {
    assert Coherent(Get(s, t));
    var x := Get(s, t);
    if !x.state.ZOMBIE? && !x.state.RUNNING? && !x.state.RUNNABLE? {
      InterruptRouses(s, t);
    }
  }

  lemma InterruptRouses(s: Vp, t: Tid)
    requires SleepQOk(s) && Coherent(Get(s, t)) && Blocked(Get(s, t))
    ensures var s' := ThreadInterrupt(s, t).0;
      && s'.runQ == s.runQ + [t] && OutOfHeap(s.sleepQ, s'.sleepQ, [t])
      && s'.thr == s.thr[t := Roused(Get(s, t), ByInterrupt).(interrupt := true)]
      && s' == s.(thr := s'.thr, runQ := s'.runQ, sleepQ := s'.sleepQ)
  {
    var x, s' := Noted(Get(s, t), ByInterrupt).(interrupt := true), ThreadInterrupt(s, t).0;
    WakeLeavesHeap(s, t);
    assert x.(state := RUNNABLE, onSleepQ := false) == Roused(Get(s, t), ByInterrupt).(interrupt := true);
    WokenRecord(s, t, x);
  }

  lemma WokenRecord(s: Vp, t: Tid, x: Thread)
    requires x.onSleepQ == Get(s, t).onSleepQ
    ensures var s' := Wake(With(s, t, x), t);
      && s'.thr == s.thr[t := x.(state := RUNNABLE, onSleepQ := false)] && s'.runQ == s.runQ + [t]
      && s'.sleepQ == (if x.onSleepQ then HeapWithout(s.sleepQ, t) else s.sleepQ)
      && s' == s.(thr := s'.thr, runQ := s'.runQ, sleepQ := s'.sleepQ)
  {
  }

  // ------------------------------------------------ objects: create and destroy

  /** A new object has no waiters and no owner.  A condition variable can be destroyed
      unless somebody waits on it, a mutex unless it is held or somebody waits for it. */
  lemma ObjectCalls(s: Vp, cv: Cv, m: Mx)
    requires cv in s.conds && m in s.mutexes
    ensures forall c: Cv :: c !in s.conds ==> Do(s, EvCondNew(c)) == (s.(conds := s.conds[c := Cond([], None)]), Returned(c))
    ensures forall n: Mx :: n !in s.mutexes ==> Do(s, EvMutexNew(n)) == (s.(mutexes := s.mutexes[n := Mutex(None, [])]), Returned(n))
    ensures Do(s, EvCondDestroy(cv)) == if s.conds[cv].waitQ == [] then (s.(conds := s.conds - {cv}), Returned(0)) else (s, Failed(EBUSY))
    ensures Do(s, EvMutexDestroy(m)) == if s.mutexes[m] == Mutex(None, []) then (s.(mutexes := s.mutexes - {m}), Returned(0)) else (s, Failed(EBUSY))
  {
  }

  // ------------------------------------------------------------- going on

  /** The caller's record is `x` now, and nobody else is touched. */
  ghost predicate GoesOn(s: Vp, s': Vp, x: Thread) {
    s'.cur == s.cur && s'.runQ == s.runQ && forall t: Tid :: Get(s', t) == if t == s.cur then x else Get(s, t)
  }

  /** `st_poll` goes on: if nothing was reported its element is taken off the io queue;
      the result is the number of descriptors with something reported. */
  lemma PollGoesOn(s: Vp)
    requires Inv(s) && Me(s).pc.InPoll?
    ensures var (s', r) := Do(s, EvResume); var fired := Me(s).pc.fired;
      && r == (if Me(s).interrupt then Failed(EINTR) else Returned(if fired.Some? then |Reporting(fired.value)| else 0))
      && GoesOn(s, s', Me(s).(pc := User, interrupt := false)) && s' == s.(thr := s'.thr, ioQ := s'.ioQ)
      && if fired.Some? then s'.ioQ == s.ioQ
         else exists i :: 0 <= i < |s.ioQ| && s.ioQ[i].thread == s.cur && s'.ioQ == RemoveAt(s.ioQ, i)
  {
    if Me(s).pc.fired.None? {
      OnIoQueue(s, s.cur);
    }
    PollEnds(s, Me(s).pc.fired);
  }

  lemma PollEnds(s: Vp, fired: Option<seq<PollFd>>)
    requires fired.None? ==> exists i :: 0 <= i < |s.ioQ| && s.ioQ[i].thread == s.cur
    ensures var (s', r) := PollResumed(s, fired);
      && r == (if Me(s).interrupt then Failed(EINTR) else Returned(if fired.Some? then |Reporting(fired.value)| else 0))
      && GoesOn(s, s', Me(s).(pc := User, interrupt := false)) && s' == s.(thr := s'.thr, ioQ := s'.ioQ)
      && if fired.Some? then s'.ioQ == s.ioQ
         else exists i :: 0 <= i < |s.ioQ| && s.ioQ[i].thread == s.cur && s'.ioQ == RemoveAt(s.ioQ, i)
  {
    if fired.Some? {
      CountIsNumber(fired.value);
    } else {
      WithoutIsRemoval(s.ioQ, s.cur);
    }
  }

  /** The positions of the descriptors that have something reported. */
  ghost function Reporting(pds: seq<PollFd>): set<int> {
    set i | 0 <= i < |pds| && pds[i].revents != {}
  }

  lemma {:induction false} CountIsNumber(pds: seq<PollFd>)
    ensures CountReady(pds) == |Reporting(pds)|
  {
    if pds != [] {
      var n := |pds| - 1;
      CountOfLast(pds);
      CountIsNumber(pds[..n]);
      assert Reporting(pds) == Reporting(pds[..n]) + if pds[n].revents != {} then {n} else {};
    }
  }

  lemma {:induction false} CountOfLast(pds: seq<PollFd>)
    requires pds != []
    ensures CountReady(pds) == CountReady(pds[..|pds| - 1]) + if pds[|pds| - 1].revents != {} then 1 else 0
  {
    var n := |pds| - 1;
    if n > 0 {
      CountOfLast(pds[1..]);
      assert pds[1..][..n - 1] == pds[..n][1..];
    }
  }

  lemma OnIoQueue(s: Vp, t: Tid)
    requires IoQOk(s) && OnIo(Get(s, t))
    ensures exists i :: 0 <= i < |s.ioQ| && s.ioQ[i].thread == t
  {
    assert multiset(Pollers(s.ioQ))[t] > 0;
    var i := IndexOf(Pollers(s.ioQ), t);
    assert s.ioQ[i].thread == t;
  }

  lemma {:induction false} WithoutIsRemoval(q: seq<PollQ>, t: Tid)
    requires exists i :: 0 <= i < |q| && q[i].thread == t
    ensures exists i :: 0 <= i < |q| && q[i].thread == t && WithoutThread(q, t) == RemoveAt(q, i)
  {
    if q[0].thread == t {
      assert RemoveAt(q, 0) == q[1..];
    } else {
      var i :| 0 <= i < |q| && q[i].thread == t;
      assert q[1..][i - 1].thread == t;
      WithoutIsRemoval(q[1..], t);
      var j :| 0 <= j < |q| - 1 && q[1..][j].thread == t && WithoutThread(q[1..], t) == RemoveAt(q[1..], j);
      RemoveAtTail(q, j + 1);
      assert q[j + 1].thread == t;
    }
  }

  /** `st_usleep` goes on. */
  lemma SleepGoesOn(s: Vp)
    requires Inv(s) && Me(s).pc.InSleep?
    ensures var (s', r) := Do(s, EvResume);
      && r == (if Me(s).interrupt then Failed(EINTR) else Returned(0))
      && GoesOn(s, s', Me(s).(pc := User, interrupt := false)) && s' == s.(thr := s'.thr)
  {
  }

  /** `st_cond_timedwait` goes on: off the wait queue, with both flags taken. */
  lemma WaitGoesOn(s: Vp)
    requires Inv(s) && Me(s).pc.InCondWait?
    ensures var (s', r) := Do(s, EvResume); var cv := Me(s).pc.cv;
      && r == (if Me(s).interrupt then Failed(EINTR) else if Me(s).timedOut then Failed(ETIME) else Returned(0))
      && GoesOn(s, s', Me(s).(pc := User, interrupt := false, timedOut := false))
      && s'.conds == s.conds[cv := Cond(Without(WaitQ(s, cv), s.cur), None)] && s' == s.(thr := s'.thr, conds := s'.conds)
  {
    assert UserCond(s, Me(s).pc.cv);
  }

  /** `st_mutex_lock` goes on: off the queue of the mutex; an interrupt is taken unless the
      mutex was handed over, and stays pending otherwise. */
  lemma LockGoesOnWith(s: Vp)
    requires Inv(s) && Me(s).pc.InLock?
    ensures var (s', r) := Do(s, EvResume); var m := Me(s).pc.m;
      && m in s.mutexes && s'.mutexes == s.mutexes[m := Mutex(s.mutexes[m].owner, Without(s.mutexes[m].waitQ, s.cur))]
      && (if s.mutexes[m].owner == Some(s.cur) then r == Returned(0) && GoesOn(s, s', Me(s).(pc := User))
          else r == Failed(EINTR) && GoesOn(s, s', Me(s).(pc := User, interrupt := false)))
      && s' == s.(thr := s'.thr, mutexes := s'.mutexes)
  {
    LockResult(s);
    assert MutexOk(s, Me(s).pc.m) && OnMutex(Me(s), Me(s).pc.m);
    assert multiset(MutexOf(s, Me(s).pc.m).waitQ)[s.cur] == 1;
  }

  /** The caller has joined `t` by its variable `cv`: an interrupt ends that, otherwise
      the thread has ended and is collected. */
  ghost predicate Joined(s: Vp, s': Vp, r: Outcome, t: Tid, cv: Cv)
    requires cv in s.conds
  {
    && s'.conds == s.conds[cv := s.conds[cv].(waitQ := Without(s.conds[cv].waitQ, s.cur))]
    && (if Me(s).interrupt then r == Failed(EINTR) && s'.runQ == s.runQ && s'.zombieQ == s.zombieQ
        else r == Returned(0) && Get(s, t).state.ZOMBIE? && s'.runQ == s.runQ + [t] && s'.zombieQ == Without(s.zombieQ, t))
    && (forall u: Tid :: Get(s', u) ==
          if u == s.cur then Me(s).(pc := User, interrupt := false, timedOut := false)
          else if u == t && !Me(s).interrupt then Get(s, u).(state := RUNNABLE) else Get(s, u))
    && s' == s.(thr := s'.thr, runQ := s'.runQ, zombieQ := s'.zombieQ, conds := s'.conds)
  }

  /** `st_thread_join` goes on. */
  lemma JoinGoesOn(s: Vp)
    requires Inv(s) && Me(s).pc.InJoin?
    ensures var (s', r) := Do(s, EvResume); var InJoin(t, cv, _) := Me(s).pc;
      cv in s.conds && Joined(s, s', r, t, cv)
  {
    JoinHasEnded(s);
    JoinEnds(s, Me(s).pc.target, Me(s).pc.cv);
  }

  lemma JoinHasEnded(s: Vp)
    requires Inv(s) && Me(s).pc.InJoin?
    ensures var InJoin(t, cv, _) := Me(s).pc;
      cv in s.conds && !Me(s).timedOut && (Me(s).interrupt || (t != s.cur && Get(s, t).state.ZOMBIE?))
  {
    JoinEndsAtOnce(s);
    assert JoinOk(s, Me(s)) && Coherent(Me(s));
    TermFacts(s, Me(s).pc.target);
  }

  lemma JoinEnds(s: Vp, t: Tid, cv: Cv)
    requires cv in s.conds && !Me(s).timedOut && (Me(s).interrupt || (t != s.cur && Get(s, t).state.ZOMBIE?))
    ensures var (s', r) := JoinResumed(s, t, cv); Joined(s, s', r, t, cv)
  {
  }

  /** `st_thread_exit` goes on after the join: the thread and its variable are gone. */
  lemma ExitGoesOn(s: Vp)
    requires Inv(s) && Me(s).pc.InExit?
    ensures var (s', r) := Do(s, EvResume);
      && r == Switched && Me(s).term.Some? && s'.conds == s.conds - {Me(s).term.value}
      && GaveWay(s, s', Me(s).(term := None, pc := Dead))
      && s' == s.(thr := s'.thr, cur := s'.cur, runQ := s'.runQ, conds := s'.conds)
  {
    assert Coherent(Me(s));
    NobodyWaits(s, s.cur);
    var cv := Me(s).term.value;
    GivesUp(s, s.(conds := s.conds - {cv}), Me(s).(term := None, pc := Dead));
  }
}
