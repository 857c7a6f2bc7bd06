/** Every call of the scheduler keeps the invariant. */
module SchedulerSteps {
  import opened HeapLayout
  import opened PollSets
  import opened SeqFacts
  import opened Timeouts
  import opened Scheduler
  import opened SchedulerInvariant

  /** Nothing but thread `t` and the queues may have changed. */
  ghost predicate Only(s: Vp, s': Vp, t: Tid) {
    s'.idle == s.idle && forall u: Tid :: u != t ==> Get(s', u) == Get(s, u)
  }

  // ---------------------------------------------- the parts of the invariant

  lemma ThreadsChange(s: Vp, s': Vp, t: Tid, running: Option<Tid>, running': Option<Tid>)
    requires ThreadsOk(s, running) && Only(s, s', t)
    requires running' == running || (running == Some(t) && running' == None) || (running == None && running' == Some(t))
    requires Coherent(Get(s', t)) && (Get(s', t).pc.InIdle? <==> t == s.idle)
    requires Get(s', t).state.RUNNING? <==> running' == Some(t) || Get(s', t).pc.Dead?
    requires running' == Some(t) ==> !Get(s', t).pc.Dead?
    ensures ThreadsOk(s', running')
  {
  }

  /** The same condition variables, for the same threads; only queues differ. */
  ghost predicate SameConds(s: Vp, s': Vp) {
    && (forall cv: Cv :: cv in s.conds <==> cv in s'.conds)
    && (forall cv: Cv :: cv in s.conds ==>
          s'.conds[cv].termOf == s.conds[cv].termOf && (s.conds[cv].termOf.Some? ==> |s'.conds[cv].waitQ| <= 1))
  }

  lemma TermChange(s: Vp, s': Vp, t: Tid)
    requires TermOk(s) && Only(s, s', t) && SameConds(s, s')
    requires Get(s', t).term == Get(s, t).term
    requires Unjoined(Get(s, t)) ==> Unjoined(Get(s', t))
    requires Get(s, t).state.ZOMBIE? ==> Get(s', t).state.ZOMBIE?
    requires Get(s', t).pc.InCondWait? ==> UserCond(s, Get(s', t).pc.cv)
    requires Get(s', t).pc.InJoin? ==> JoinOk(s', Get(s', t))
    ensures TermOk(s')
  {
    forall u: Tid | Get(s', u).term.Some?
      ensures Get(s', u).term.value in s'.conds && s'.conds[Get(s', u).term.value].termOf == Some(u)
    {
      var cv := Get(s', u).term.value;
      assert Get(s, u).term == Some(cv);
      assert cv in s.conds && s.conds[cv].termOf == Some(u);
    }
    forall u: Tid | Get(s', u).pc.InJoin? ensures JoinOk(s', Get(s', u)) {
      if u != t {
        assert JoinOk(s, Get(s, u));
      }
    }
  }

  /** The objects and the places of the threads on them are unchanged. */
  lemma ObjectsChange(s: Vp, s': Vp, t: Tid)
    requires ObjectsOk(s) && Only(s, s', t) && s'.conds == s.conds && s'.mutexes == s.mutexes
    requires forall cv: Cv :: OnCond(Get(s', t), cv) <==> OnCond(Get(s, t), cv)
    requires forall m: Mx :: OnMutex(Get(s', t), m) <==> OnMutex(Get(s, t), m)
    requires Get(s', t).pc.InLock? ==>
      (if Get(s', t).state.LOCK_WAIT? then Get(s, t).state.LOCK_WAIT? else Get(s', t).interrupt || (!Get(s, t).state.LOCK_WAIT? && !Get(s, t).interrupt))
    ensures ObjectsOk(s')
  {
    forall cv: Cv ensures CondOk(s', cv) {
      assert CondOk(s, cv);
    }
    forall m: Mx ensures MutexOk(s', m) {
      assert MutexOk(s, m);
    }
  }

  lemma LiveChange(s: Vp, s': Vp, t: Tid)
    requires ActiveOk(s) && Only(s, s', t) && s'.active == s.active
    requires Alive(Get(s, t)) <==> Alive(Get(s', t))
    ensures ActiveOk(s')
  {
    LiveKept(s, s');
  }

  // -------------------------------------------------------------------- waking

  /** `x'` is the record of a blocked thread `x` that has been woken. */
  ghost predicate Awake(x: Thread, x': Thread) {
    && Blocked(x) && x'.state.RUNNABLE? && !x'.onSleepQ && x'.term == x.term
    && Coherent(x') && !x'.pc.InIdle? && Alive(x')
    && (forall cv: Cv :: OnCond(x', cv) <==> OnCond(x, cv))
    && (forall m: Mx :: OnMutex(x', m) <==> OnMutex(x, m))
    && (x'.pc.InCondWait? <==> x.pc.InCondWait?)
  }

  /** `s'` is `s` with `t` woken, as far as threads and their queues go. */
  ghost predicate WakesUp(s: Vp, s': Vp, t: Tid) {
    && Only(s, s', t) && t != s.idle && Awake(Get(s, t), Get(s', t))
    && s'.runQ == s.runQ + [t] && s'.zombieQ == s.zombieQ
    && s'.sleepQ == (if Get(s, t).onSleepQ then HeapWithout(s.sleepQ, t) else s.sleepQ)
    && s'.active == s.active && s'.conds == s.conds
  }

  lemma WakeQueues(s: Vp, s': Vp, t: Tid)
    requires RunQOk(s) && ZombieQOk(s) && WakesUp(s, s', t)
    ensures RunQOk(s') && ZombieQOk(s')
  {
  }

  lemma WakeSleepQ(s: Vp, s': Vp, t: Tid)
    requires SleepQOk(s) && WakesUp(s, s', t)
    ensures SleepQOk(s')
  {
    if Get(s, t).onSleepQ {
      PosFinds(s.sleepQ, t);
      DeleteOrders(s.sleepQ, Pos(s.sleepQ, t));
      DeleteCounts(s.sleepQ, Pos(s.sleepQ, t));
    }
  }

  /** A signalled thread in a join has a zombie to collect. */
  ghost predicate JoinerOk(s: Vp, x': Thread) {
    x'.pc.InJoin? ==> JoinOk(s, x')
  }

  lemma WakeTerm(s: Vp, s': Vp, t: Tid)
    requires TermOk(s) && WakesUp(s, s', t) && JoinerOk(s, Get(s', t))
    ensures TermOk(s')
  {
    var x' := Get(s', t);
    assert x'.pc.InCondWait? ==> OnCond(x', x'.pc.cv) && UserCond(s, Get(s, t).pc.cv);
    assert SameConds(s, s');
    TermChange(s, s', t);
  }

  lemma WakeKeeps(s: Vp, s': Vp, t: Tid, running: Option<Tid>)
    requires Agrees(s, running) && WakesUp(s, s', t) && JoinerOk(s, Get(s', t))
    requires IoQOk(s') && ObjectsOk(s')
    ensures Agrees(s', running)
  {
    ThreadsChange(s, s', t, running, running);
    WakeQueues(s, s', t);
    WakeSleepQ(s, s', t);
    WakeTerm(s, s', t);
    LiveChange(s, s', t);
  }

  lemma SameIoQ(s: Vp, s': Vp, t: Tid)
    requires IoQOk(s) && Only(s, s', t) && s'.ioQ == s.ioQ && (OnIo(Get(s', t)) <==> OnIo(Get(s, t)))
    ensures IoQOk(s')
  {
  }

  /** What `Wake` does, whatever note and flags the record `x` carries. */
  lemma WakeDoes(s: Vp, t: Tid, x: Thread)
    requires x.onSleepQ == Get(s, t).onSleepQ && t != s.idle
    requires Awake(Get(s, t), x.(state := RUNNABLE, onSleepQ := false))
    ensures var s' := Wake(With(s, t, x), t);
      && WakesUp(s, s', t) && Get(s', t) == x.(state := RUNNABLE, onSleepQ := false)
      && s'.ioQ == s.ioQ && s'.mutexes == s.mutexes
  {
  }

  lemma NotedAwake(x: Thread, w: Woke, interrupt: bool)
    requires Coherent(x) && Blocked(x)
    requires (w == ByInterrupt && interrupt) || (w == BySignal && !interrupt && x.state.COND_WAIT?)
    ensures Awake(x, Noted(x, w).(interrupt := interrupt, state := RUNNABLE, onSleepQ := false))
    ensures !interrupt ==> Noted(x, w).interrupt == interrupt
    ensures interrupt || !x.pc.InLock?
  {
  }

  /** A thread in COND_WAIT is woken by a signal. */
  lemma SignalOne(s: Vp, t: Tid, running: Option<Tid>)
    requires Agrees(s, running) && Get(s, t).state.COND_WAIT?
    requires JoinerOk(s, Noted(Get(s, t), BySignal))
    ensures Agrees(Wake(With(s, t, Noted(Get(s, t), BySignal)), t), running)
  {
    var x := Noted(Get(s, t), BySignal);
    var s' := Wake(With(s, t, x), t);
    assert Coherent(Get(s, t)) && t != s.idle;
    NotedAwake(Get(s, t), BySignal, false);
    WakeDoes(s, t, x);
    WakeSamePlace(s, s', t, running);
  }

  /** A thread is woken that keeps its place, and the mutexes stay as they are. */
  lemma WakeSamePlace(s: Vp, s': Vp, t: Tid, running: Option<Tid>)
    requires Agrees(s, running) && WakesUp(s, s', t) && JoinerOk(s, Get(s', t))
    requires s'.ioQ == s.ioQ && s'.mutexes == s.mutexes
    requires OnIo(Get(s', t)) <==> OnIo(Get(s, t))
    requires Get(s', t).interrupt || !Get(s, t).pc.InLock?
    ensures Agrees(s', running)
  {
    assert Get(s', t).pc.InLock? ==> OnMutex(Get(s', t), Get(s', t).pc.m);
    SameIoQ(s, s', t);
    ObjectsChange(s, s', t);
    WakeKeeps(s, s', t, running);
  }

  /** A blocked thread is interrupted. */
  lemma InterruptOne(s: Vp, t: Tid, running: Option<Tid>)
    requires Agrees(s, running) && Blocked(Get(s, t))
    ensures Agrees(Wake(With(s, t, Noted(Get(s, t), ByInterrupt).(interrupt := true)), t), running)
  {
    var x := Noted(Get(s, t), ByInterrupt).(interrupt := true);
    var s' := Wake(With(s, t, x), t);
    assert Coherent(Get(s, t)) && t != s.idle;
    NotedAwake(Get(s, t), ByInterrupt, true);
    WakeDoes(s, t, x);
    WakeSamePlace(s, s', t, running);
  }

  /** A waiter that gets the mutex from its owner. */
  lemma HandOverOne(s: Vp, m: Mx, t: Tid, running: Option<Tid>)
    requires Agrees(s, running) && Get(s, t).state.LOCK_WAIT? && OnMutex(Get(s, t), m)
    requires forall u: Tid :: OnMutex(Get(s, u), m) && !Get(s, u).state.LOCK_WAIT? ==> Get(s, u).interrupt
    ensures Agrees(MakeRunnable(WithMutex(s, m, MutexOf(s, m).(owner := Some(t))), t), running)
  {
    var s' := MakeRunnable(WithMutex(s, m, MutexOf(s, m).(owner := Some(t))), t);
    assert Coherent(Get(s, t)) && t != s.idle;
    SameIoQ(s, s', t);
    HandOverObjects(s, s', m, t);
    WakeKeeps(s, s', t, running);
  }

  lemma HandOverObjects(s: Vp, s': Vp, m: Mx, t: Tid)
    requires ObjectsOk(s) && Only(s, s', t) && s'.conds == s.conds
    requires s'.mutexes == s.mutexes[m := MutexOf(s, m).(owner := Some(t))]
    requires OnMutex(Get(s, t), m) && Get(s', t) == Get(s, t).(state := RUNNABLE)
    requires forall u: Tid :: OnMutex(Get(s, u), m) && !Get(s, u).state.LOCK_WAIT? ==> Get(s, u).interrupt
    ensures ObjectsOk(s')
  {
    forall cv: Cv ensures CondOk(s', cv) {
      assert CondOk(s, cv);
    }
    forall n: Mx ensures MutexOk(s', n) {
      assert MutexOk(s, n);
    }
  }

  lemma CountsTwice<T>(w: seq<T>, i: nat, j: nat)
    requires i < j < |w| && w[i] == w[j]
    ensures multiset(w)[w[i]] >= 2
  {
    RemoveOne(w, i);
    assert (w[..i] + w[i + 1..])[j - 1] == w[j];
  }

  lemma AtMostOnce<T>(w: seq<T>, i: nat, j: nat)
    requires i < |w| && j < |w| && w[i] == w[j] && multiset(w)[w[i]] <= 1
    ensures i == j
  {
    if i < j {
      CountsTwice(w, i, j);
    } else if j < i {
      CountsTwice(w, j, i);
    }
  }

  lemma PosIsUnique(h: seq<Entry<Tid>>, k: nat)
    requires 1 <= k <= |h| && multiset(Whos(h))[At(h, k).who] <= 1
    ensures Pos(h, At(h, k).who) == k
  {
    var who := h[k - 1].who;
    var j := Pos(h, who);
    assert h[k - 1].who == who;
    SamePlace(h, j, k);
  }

  lemma SamePlace(h: seq<Entry<Tid>>, j: nat, k: nat)
    requires 1 <= j <= |h| && 1 <= k <= |h| && h[j - 1].who == h[k - 1].who && multiset(Whos(h))[h[k - 1].who] <= 1
    ensures j == k
  {
    AtMostOnce(Whos(h), j - 1, k - 1);
  }

  /** The thread at the root of the heap is woken because it is due. */
  lemma ExpireOne(s: Vp, now: int, running: Option<Tid>)
    requires Agrees(s, running) && s.sleepQ != [] && At(s.sleepQ, 1).due <= now
    ensures Agrees(Expire(s, now), running)
  {
    var s', t := Expire(s, now), At(s.sleepQ, 1).who;
    var x, x' := Get(s, t), Get(s', t);
    assert t in multiset(Whos(s.sleepQ)) by {
      assert Whos(s.sleepQ)[0] == t;
    }
    PosIsUnique(s.sleepQ, 1);
    assert Coherent(x) && t != s.idle;
    ExpireDoes(s, now);
    WakeSamePlace(s, s', t, running);
  }

  lemma ExpireDoes(s: Vp, now: int)
    requires s.sleepQ != [] && At(s.sleepQ, 1).due <= now
    requires var t := At(s.sleepQ, 1).who;
      Pos(s.sleepQ, t) == 1 && Get(s, t).onSleepQ && Coherent(Get(s, t)) && t != s.idle
    ensures var s', t := Expire(s, now), At(s.sleepQ, 1).who;
      && WakesUp(s, s', t) && s'.ioQ == s.ioQ && s'.mutexes == s.mutexes
      && Get(s', t).pc.InJoin? == Get(s, t).pc.InJoin? == false && !Get(s, t).pc.InLock?
  {
  }

  /** A poller that has something reported is woken. */
  lemma WakeIoOne(s: Vp, i: nat, pds: seq<PollFd>, running: Option<Tid>)
    requires Agrees(s, running) && i < |s.ioQ| && Get(s, s.ioQ[i].thread).state.IO_WAIT?
    ensures Agrees(WakeIo(s, i, pds), running)
  {
    var s', t := WakeIo(s, i, pds), s.ioQ[i].thread;
    assert Coherent(Get(s, t)) && t != s.idle;
    WakeIoDoes(s, i, pds);
    assert IoQOk(s') by {
      PollersRemoveAt(s.ioQ, i);
    }
    ObjectsChange(s, s', t);
    WakeKeeps(s, s', t, running);
  }

  lemma WakeIoDoes(s: Vp, i: nat, pds: seq<PollFd>)
    requires i < |s.ioQ|
    requires var x := Get(s, s.ioQ[i].thread); x.state.IO_WAIT? && Coherent(x) && s.ioQ[i].thread != s.idle
    ensures var s', t := WakeIo(s, i, pds), s.ioQ[i].thread;
      && WakesUp(s, s', t) && s'.ioQ == RemoveAt(s.ioQ, i) && s'.mutexes == s.mutexes
      && Get(s', t) == Get(s, t).(state := RUNNABLE, onSleepQ := false, pc := InPoll(Some(pds)))
  {
  }

  // -------------------------------------------------------------- the switch

  /** The scheduler picks a RUNNABLE thread, the idle one only when the run queue
      is empty, and afterwards exactly that thread runs. */
  lemma ScheduleKeeps(s: Vp)
    requires Agrees(s, None)
    ensures Inv(Schedule(s))
    ensures Get(s, Schedule(s).cur).state.RUNNABLE?
    ensures Schedule(s).cur == s.idle <==> s.runQ == []
  {
    var s', t := Schedule(s), Schedule(s).cur;
    if s.runQ == [] {
      assert Coherent(Get(s, s.idle));
    } else {
      assert multiset(s.runQ)[s.runQ[0]] > 0;
    }
    assert Get(s, t).state.RUNNABLE?;
    PickKeeps(s, s', t);
  }

  /** The thread that was picked runs. */
  lemma PickKeeps(s: Vp, s': Vp, t: Tid)
    requires Agrees(s, None) && Only(s, s', t) && s'.cur == t
    requires t == if s.runQ == [] then s.idle else s.runQ[0]
    requires Get(s, t).state.RUNNABLE? && Get(s', t) == Get(s, t).(state := RUNNING)
    requires s'.runQ == if s.runQ == [] then [] else s.runQ[1..]
    requires s'.zombieQ == s.zombieQ && s'.sleepQ == s.sleepQ && s'.ioQ == s.ioQ
    requires s'.conds == s.conds && s'.mutexes == s.mutexes && s'.active == s.active
    ensures Inv(s')
  {
    if s.runQ != [] {
      HeadCounts(s.runQ);
    }
    assert Coherent(Get(s, t));
    ThreadsChange(s, s', t, None, Some(t));
    RunningTurns(s, s', t);
    LiveChange(s, s', t);
  }

  /** Queues and objects do not depend on which of RUNNABLE and RUNNING a thread is. */
  lemma RunningTurns(s: Vp, s': Vp, t: Tid)
    requires ZombieQOk(s) && SleepQOk(s) && IoQOk(s) && ObjectsOk(s) && TermOk(s)
    requires Only(s, s', t) && Get(s, t).state.RUNNABLE? && Get(s', t) == Get(s, t).(state := RUNNING)
    requires s'.zombieQ == s.zombieQ && s'.sleepQ == s.sleepQ && s'.ioQ == s.ioQ
    requires s'.conds == s.conds && s'.mutexes == s.mutexes
    ensures ZombieQOk(s') && SleepQOk(s') && IoQOk(s') && ObjectsOk(s') && TermOk(s')
  {
    assert Get(s', t).pc.InLock? ==> OnMutex(Get(s', t), Get(s', t).pc.m);
    ObjectsTurn(s, s', t);
    assert SameConds(s, s');
    assert Get(s, t).pc.InJoin? ==> JoinOk(s, Get(s, t));
    TermChange(s, s', t);
  }

  lemma ObjectsTurn(s: Vp, s': Vp, t: Tid)
    requires ObjectsOk(s) && Only(s, s', t) && s'.conds == s.conds && s'.mutexes == s.mutexes
    requires Get(s, t).state.RUNNABLE? && Get(s', t) == Get(s, t).(state := RUNNING)
    ensures ObjectsOk(s')
  {
    forall cv: Cv ensures CondOk(s', cv) {
      assert CondOk(s, cv);
    }
    forall m: Mx ensures MutexOk(s', m) {
      assert MutexOk(s, m);
    }
  }

  // ------------------------------------------------------------ giving way

  /** The current thread is outside of the library. */
  ghost predicate Calls(s: Vp) {
    Inv(s) && Me(s).pc.User?
  }

  /** Thread `t`, which ran, is now blocked; run queue and zombies are as before. */
  ghost predicate GivesWay(s: Vp, s': Vp, t: Tid) {
    && Only(s, s', t) && Blocked(Get(s', t)) && Coherent(Get(s', t)) && Alive(Get(s', t))
    && Get(s', t).term == Get(s, t).term
    && s'.runQ == s.runQ && s'.zombieQ == s.zombieQ && s'.active == s.active
  }

  lemma BlockKeeps(s: Vp, s': Vp, t: Tid)
    requires Agrees(s, Some(t)) && Get(s, t).pc.User? && GivesWay(s, s', t)
    requires SleepQOk(s') && IoQOk(s') && ObjectsOk(s') && TermOk(s')
    ensures Agrees(s', None)
  {
    assert t != s.idle;
    ThreadsChange(s, s', t, Some(t), None);
    BlockQueues(s, s', t);
    LiveChange(s, s', t);
  }

  lemma BlockQueues(s: Vp, s': Vp, t: Tid)
    requires RunQOk(s) && ZombieQOk(s) && Get(s, t).state.RUNNING? && GivesWay(s, s', t)
    ensures RunQOk(s') && ZombieQOk(s')
  {
  }

  lemma SleepQAdded(s: Vp, s': Vp, t: Tid, timeout: Option<nat>)
    requires SleepQOk(s) && Only(s, s', t) && !Get(s, t).onSleepQ && Get(s', t).onSleepQ == timeout.Some?
    requires s'.sleepQ == if timeout.Some? then Insert(s.sleepQ, Entry(t, s.lastClock + timeout.value)) else s.sleepQ
    ensures SleepQOk(s')
  {
    if timeout.Some? {
      InsertOrders(s.sleepQ, Entry(t, s.lastClock + timeout.value));
      InsertCounts(s.sleepQ, Entry(t, s.lastClock + timeout.value));
    }
  }

  /** The thread is on no object before and on none after. */
  lemma ObjectsAway(s: Vp, s': Vp, t: Tid)
    requires ObjectsOk(s) && Only(s, s', t) && s'.conds == s.conds && s'.mutexes == s.mutexes
    requires !Waits(Get(s, t)) && !Get(s, t).pc.InLock? && !Waits(Get(s', t)) && !Get(s', t).pc.InLock?
    ensures ObjectsOk(s')
  {
    ObjectsChange(s, s', t);
  }

  lemma TermAway(s: Vp, s': Vp, t: Tid)
    requires TermOk(s) && Only(s, s', t) && s'.conds == s.conds
    requires Get(s', t).term == Get(s, t).term && !Waits(Get(s', t)) && Unjoined(Get(s', t)) && !Get(s, t).state.ZOMBIE?
    ensures TermOk(s')
  {
    assert SameConds(s, s');
    TermChange(s, s', t);
  }

  lemma PollBlocks(s: Vp, pds: seq<PollFd>, timeout: Option<nat>)
    requires Calls(s) && !Me(s).interrupt
    ensures Agrees(Block(AddSleepQ(s.(ioQ := s.ioQ + [PollQ(s.cur, pds)]), s.cur, timeout), IO_WAIT, InPoll(None)), None)
  {
    var t, s0 := s.cur, s.(ioQ := s.ioQ + [PollQ(s.cur, pds)]);
    assert Coherent(Get(s, t));
    BlockDoes(s, s0, IO_WAIT, InPoll(None), timeout);
    PollingBlocks(s, Block(AddSleepQ(s0, t, timeout), IO_WAIT, InPoll(None)), t, pds, timeout);
  }

  lemma PollingBlocks(s: Vp, s': Vp, t: Tid, pds: seq<PollFd>, timeout: Option<nat>)
    requires Agrees(s, Some(t)) && Get(s, t).pc.User? && GivesWay(s, s', t)
    requires OnIo(Get(s', t)) && Get(s', t).onSleepQ == timeout.Some?
    requires s'.sleepQ == if timeout.Some? then Insert(s.sleepQ, Entry(t, s.lastClock + timeout.value)) else s.sleepQ
    requires s'.ioQ == s.ioQ + [PollQ(t, pds)] && s'.mutexes == s.mutexes && s'.conds == s.conds
    ensures Agrees(s', None)
  {
    assert Coherent(Get(s, t));
    PollQAdded(s, s', t, pds);
    SleepQAdded(s, s', t, timeout);
    ObjectsAway(s, s', t);
    TermAway(s, s', t);
    BlockKeeps(s, s', t);
  }

  lemma PollQAdded(s: Vp, s': Vp, t: Tid, pds: seq<PollFd>)
    requires IoQOk(s) && Only(s, s', t) && !OnIo(Get(s, t)) && OnIo(Get(s', t)) && s'.ioQ == s.ioQ + [PollQ(t, pds)]
    ensures IoQOk(s')
  {
    PollersAppended(s.ioQ, PollQ(t, pds));
  }

  /** A call that first changes a queue (giving `s0`), then sets the timeout and
      the state: what comes out. */
  lemma BlockDoes(s: Vp, s0: Vp, state: State, pc: Point, timeout: Option<nat>)
    requires s0 == s.(ioQ := s0.ioQ, conds := s0.conds, mutexes := s0.mutexes)
    requires Coherent(Me(s)) && Me(s).pc.User? && Me(s).state.RUNNING? && !Me(s).interrupt
    requires Coherent(Me(s).(state := state, pc := pc, onSleepQ := timeout.Some?))
    requires Blocked(Me(s).(state := state)) && Alive(Me(s).(pc := pc))
    ensures var s', t := Block(AddSleepQ(s0, s.cur, timeout), state, pc), s.cur;
      && GivesWay(s, s', t)
      && Get(s', t) == Get(s, t).(state := state, pc := pc, onSleepQ := timeout.Some?)
      && s'.sleepQ == (if timeout.Some? then Insert(s.sleepQ, Entry(t, s.lastClock + timeout.value)) else s.sleepQ)
      && s'.ioQ == s0.ioQ && s'.conds == s0.conds && s'.mutexes == s0.mutexes
  {
  }

  lemma SleepBlocks(s: Vp, timeout: Option<nat>)
    requires Calls(s) && !Me(s).interrupt
    ensures Agrees(Block(AddSleepQ(s, s.cur, timeout), if timeout.Some? then SLEEPING else SUSPENDED, InSleep), None)
  {
    var t := s.cur;
    var s' := Block(AddSleepQ(s, t, timeout), if timeout.Some? then SLEEPING else SUSPENDED, InSleep);
    assert Coherent(Get(s, t));
    BlockDoes(s, s, if timeout.Some? then SLEEPING else SUSPENDED, InSleep, timeout);
    SameIoQ(s, s', t);
    SleepQAdded(s, s', t, timeout);
    ObjectsAway(s, s', t);
    TermAway(s, s', t);
    BlockKeeps(s, s', t);
  }

  lemma WaitQAdded(s: Vp, s': Vp, t: Tid, cv: Cv)
    requires ObjectsOk(s) && Only(s, s', t) && s'.mutexes == s.mutexes && cv in s.conds
    requires s'.conds == WithWaitQ(s, cv, WaitQ(s, cv) + [t]).conds
    requires Get(s, t).pc.User? && Waits(Get(s', t)) && Get(s', t).pc.cv == cv
    ensures ObjectsOk(s')
  {
    forall c: Cv ensures CondOk(s', c) {
      assert CondOk(s, c);
      assert WaitQ(s', c) == if c == cv then WaitQ(s, cv) + [t] else WaitQ(s, c);
    }
    MutexesAside(s, s', t);
  }

  lemma MutexesAside(s: Vp, s': Vp, t: Tid)
    requires ObjectsOk(s) && Only(s, s', t) && s'.mutexes == s.mutexes && !Get(s, t).pc.InLock? && !Get(s', t).pc.InLock?
    ensures forall m: Mx :: MutexOk(s', m)
  {
    forall m: Mx ensures MutexOk(s', m) {
      assert MutexOk(s, m);
    }
  }

  lemma CondWaitBlocks(s: Vp, cv: Cv, timeout: Option<nat>)
    requires Calls(s) && !Me(s).interrupt && UserCond(s, cv)
    ensures Agrees(Block(AddSleepQ(WithWaitQ(s, cv, WaitQ(s, cv) + [s.cur]), s.cur, timeout), COND_WAIT, InCondWait(cv, Waiting)), None)
  {
    var t, s0 := s.cur, WithWaitQ(s, cv, WaitQ(s, cv) + [s.cur]);
    assert Coherent(Get(s, t));
    BlockDoes(s, s0, COND_WAIT, InCondWait(cv, Waiting), timeout);
    WaitBlocks(s, Block(AddSleepQ(s0, t, timeout), COND_WAIT, InCondWait(cv, Waiting)), t, cv, timeout);
  }

  lemma WaitBlocks(s: Vp, s': Vp, t: Tid, cv: Cv, timeout: Option<nat>)
    requires Agrees(s, Some(t)) && Get(s, t).pc.User? && GivesWay(s, s', t) && UserCond(s, cv)
    requires Get(s', t).pc == InCondWait(cv, Waiting) && Get(s', t).state.COND_WAIT? && Get(s', t).onSleepQ == timeout.Some?
    requires s'.sleepQ == if timeout.Some? then Insert(s.sleepQ, Entry(t, s.lastClock + timeout.value)) else s.sleepQ
    requires s'.ioQ == s.ioQ && s'.mutexes == s.mutexes && s'.conds == WithWaitQ(s, cv, WaitQ(s, cv) + [t]).conds
    ensures Agrees(s', None)
  {
    assert Coherent(Get(s, t));
    SameIoQ(s, s', t);
    SleepQAdded(s, s', t, timeout);
    WaitQAdded(s, s', t, cv);
    assert SameConds(s, s');
    TermChange(s, s', t);
    BlockKeeps(s, s', t);
  }

  lemma JoinBlocks(s: Vp, target: Tid, cv: Cv)
    requires Calls(s) && !Me(s).interrupt && Get(s, target).term == Some(cv) && Unjoined(Get(s, target)) && WaitQ(s, cv) == []
    ensures Agrees(Block(WithWaitQ(s, cv, WaitQ(s, cv) + [s.cur]), COND_WAIT, InJoin(target, cv, Waiting)), None)
  {
    var t, s0 := s.cur, WithWaitQ(s, cv, WaitQ(s, cv) + [s.cur]);
    var s' := Block(AddSleepQ(s0, t, None), COND_WAIT, InJoin(target, cv, Waiting));
    assert Coherent(Get(s, t));
    BlockDoes(s, s0, COND_WAIT, InJoin(target, cv, Waiting), None);
    SameIoQ(s, s', t);
    SleepQAdded(s, s', t, None);
    WaitQAdded(s, s', t, cv);
    assert SameConds(s, s');
    assert JoinOk(s', Get(s', t));
    TermChange(s, s', t);
    BlockKeeps(s, s', t);
  }

  lemma LockBlocks(s: Vp, m: Mx)
    requires Calls(s) && !Me(s).interrupt && MutexOf(s, m).owner.Some? && MutexOf(s, m).owner != Some(s.cur)
    ensures var x := MutexOf(s, m);
      Agrees(Block(WithMutex(s, m, x.(waitQ := x.waitQ + [s.cur])), LOCK_WAIT, InLock(m)), None)
  {
    var t, x := s.cur, MutexOf(s, m);
    var s0 := WithMutex(s, m, x.(waitQ := x.waitQ + [t]));
    var s' := Block(AddSleepQ(s0, t, None), LOCK_WAIT, InLock(m));
    assert Coherent(Get(s, t));
    BlockDoes(s, s0, LOCK_WAIT, InLock(m), None);
    SameIoQ(s, s', t);
    SleepQAdded(s, s', t, None);
    LockQAdded(s, s', t, m);
    TermAway(s, s', t);
    BlockKeeps(s, s', t);
  }

  lemma LockQAdded(s: Vp, s': Vp, t: Tid, m: Mx)
    requires ObjectsOk(s) && Only(s, s', t) && s'.conds == s.conds
    requires s'.mutexes == s.mutexes[m := MutexOf(s, m).(waitQ := MutexOf(s, m).waitQ + [t])]
    requires MutexOf(s, m).owner.Some? && MutexOf(s, m).owner != Some(t)
    requires Get(s, t).pc.User? && Get(s', t).pc == InLock(m) && Get(s', t).state.LOCK_WAIT?
    ensures ObjectsOk(s')
  {
    forall cv: Cv ensures CondOk(s', cv) {
      assert CondOk(s, cv);
    }
    forall n: Mx ensures MutexOk(s', n) {
      assert MutexOk(s, n);
    }
  }

  // ----------------------------------------------------------- going on

  /** Thread `t` runs before and after, and is outside of the library after. */
  ghost predicate GoesOn(s: Vp, s': Vp, t: Tid) {
    && Only(s, s', t) && t != s.idle
    && Get(s', t) == Get(s, t).(pc := User, interrupt := Get(s', t).interrupt, timedOut := false)
    && Alive(Get(s, t))
    && s'.runQ == s.runQ && s'.zombieQ == s.zombieQ && s'.sleepQ == s.sleepQ && s'.active == s.active
  }

  lemma GoingOnKeeps(s: Vp, s': Vp, t: Tid)
    requires Agrees(s, Some(t)) && GoesOn(s, s', t)
    requires IoQOk(s') && ObjectsOk(s') && TermOk(s')
    ensures Agrees(s', Some(t))
  {
    assert Coherent(Get(s, t));
    ThreadsChange(s, s', t, Some(t), Some(t));
    GoingOnQueues(s, s', t);
    LiveChange(s, s', t);
  }

  lemma GoingOnQueues(s: Vp, s': Vp, t: Tid)
    requires RunQOk(s) && ZombieQOk(s) && SleepQOk(s) && GoesOn(s, s', t)
    ensures RunQOk(s') && ZombieQOk(s') && SleepQOk(s')
  {
  }

  /** A pending interrupt is reported and cleared. */
  lemma ClearKeeps(s: Vp)
    requires Calls(s)
    ensures Inv(ClearInterrupt(s))
  {
    var s', t := ClearInterrupt(s), s.cur;
    assert Coherent(Get(s, t));
    SameIoQ(s, s', t);
    ObjectsAway(s, s', t);
    TermAway(s, s', t);
    GoingOnKeeps(s, s', t);
  }

  lemma IoQLeft(s: Vp, s': Vp, t: Tid)
    requires IoQOk(s) && Only(s, s', t) && !OnIo(Get(s', t))
    requires s'.ioQ == if OnIo(Get(s, t)) then WithoutThread(s.ioQ, t) else s.ioQ
    ensures IoQOk(s')
  {
    WithoutThreadCounts(s.ioQ, t);
  }

  lemma PollResumedKeeps(s: Vp)
    requires Inv(s) && Me(s).pc.InPoll?
    ensures Inv(PollResumed(s, Me(s).pc.fired).0)
  {
    var fired, s', t := Me(s).pc.fired, PollResumed(s, Me(s).pc.fired).0, s.cur;
    assert Coherent(Get(s, t));
    IoQLeft(s, s', t);
    ObjectsAway(s, s', t);
    TermAway(s, s', t);
    GoingOnKeeps(s, s', t);
  }

  lemma SleepResumedKeeps(s: Vp)
    requires Inv(s) && Me(s).pc.InSleep?
    ensures Inv(SleepResumed(s).0)
  {
    var s', t := SleepResumed(s).0, s.cur;
    assert Coherent(Get(s, t));
    SameIoQ(s, s', t);
    ObjectsAway(s, s', t);
    TermAway(s, s', t);
    GoingOnKeeps(s, s', t);
  }

  lemma WaitQLeft(s: Vp, s': Vp, t: Tid, cv: Cv)
    requires ObjectsOk(s) && Only(s, s', t) && s'.mutexes == s.mutexes && cv in s.conds
    requires s'.conds == WithWaitQ(s, cv, Without(WaitQ(s, cv), t)).conds
    requires Waits(Get(s, t)) && Get(s, t).pc.cv == cv && Get(s', t).pc.User?
    ensures ObjectsOk(s')
  {
    WithoutCounts(WaitQ(s, cv), t);
    forall c: Cv ensures CondOk(s', c) {
      assert CondOk(s, c);
      assert WaitQ(s', c) == if c == cv then Without(WaitQ(s, cv), t) else WaitQ(s, c);
    }
    MutexesAside(s, s', t);
  }

  lemma WaitersExist(s: Vp, t: Tid)
    requires ObjectsOk(s) && Waits(Get(s, t))
    ensures Get(s, t).pc.cv in s.conds && t in WaitQ(s, Get(s, t).pc.cv)
  {
    assert CondOk(s, Get(s, t).pc.cv);
    assert multiset(WaitQ(s, Get(s, t).pc.cv))[t] == 1;
  }

  lemma {:induction false} WithoutShrinks(q: seq<Tid>, t: Tid)
    ensures |Without(q, t)| == |q| - if t in q then 1 else 0
  {
    if q != [] && q[0] != t {
      WithoutShrinks(q[1..], t);
    }
  }

  lemma CondResumedKeeps(s: Vp)
    requires Inv(s) && Waits(Me(s))
    ensures var s' := CondResumed(s, Me(s).pc.cv).0;
      Inv(s') && Me(s').pc.User? && (Me(s).pc.InJoin? ==> WaitQ(s', Me(s).pc.cv) == [])
  {
    var cv, s', t := Me(s).pc.cv, CondResumed(s, Me(s).pc.cv).0, s.cur;
    assert Coherent(Get(s, t));
    WaitersExist(s, t);
    WithoutShrinks(WaitQ(s, cv), t);
    SameIoQ(s, s', t);
    WaitQLeft(s, s', t, cv);
    assert SameConds(s, s');
    TermChange(s, s', t);
    GoingOnKeeps(s, s', t);
    assert Me(s).pc.InJoin? ==> JoinOk(s, Me(s));
  }

  /** A mutex that the thread has nothing to do with. */
  lemma MutexAside(s: Vp, s': Vp, t: Tid, m: Mx)
    requires MutexOk(s, m) && Only(s, s', t) && MutexOf(s', m) == MutexOf(s, m)
    requires !OnMutex(Get(s, t), m) && !OnMutex(Get(s', t), m)
    ensures MutexOk(s', m)
  {
  }

  lemma MutexLeft(s: Vp, s': Vp, t: Tid, m: Mx)
    requires MutexOk(s, m) && Only(s, s', t) && OnMutex(Get(s, t), m) && !OnMutex(Get(s', t), m)
    requires MutexOf(s', m) == MutexOf(s, m).(waitQ := Without(MutexOf(s, m).waitQ, t))
    ensures MutexOk(s', m)
  {
    WithoutCounts(MutexOf(s, m).waitQ, t);
  }

  lemma LockQLeft(s: Vp, s': Vp, t: Tid, m: Mx)
    requires ObjectsOk(s) && Only(s, s', t) && s'.conds == s.conds
    requires s'.mutexes == s.mutexes[m := MutexOf(s, m).(waitQ := Without(MutexOf(s, m).waitQ, t))]
    requires Get(s, t).pc == InLock(m) && Get(s', t).pc.User?
    ensures ObjectsOk(s')
  {
    forall cv: Cv ensures CondOk(s', cv) {
      assert CondOk(s, cv);
    }
    forall n: Mx ensures MutexOk(s', n) {
      assert MutexOk(s, n);
      if n == m {
        MutexLeft(s, s', t, m);
      } else {
        MutexAside(s, s', t, n);
      }
    }
  }

  lemma LockResumedKeeps(s: Vp)
    requires Inv(s) && Me(s).pc.InLock?
    ensures Inv(LockResumed(s, Me(s).pc.m).0)
  {
    assert Coherent(Me(s));
    LockResumedDoes(s, Me(s).pc.m);
    LockGoesOn(s, LockResumed(s, Me(s).pc.m).0, s.cur, Me(s).pc.m);
  }

  lemma LockResumedDoes(s: Vp, m: Mx)
    requires Coherent(Me(s)) && Me(s).pc == InLock(m) && s.cur != s.idle
    ensures var s' := LockResumed(s, m).0;
      && GoesOn(s, s', s.cur) && s'.ioQ == s.ioQ && s'.conds == s.conds && s'.cur == s.cur
      && s'.mutexes == s.mutexes[m := MutexOf(s, m).(waitQ := Without(MutexOf(s, m).waitQ, s.cur))]
  {
  }

  lemma LockGoesOn(s: Vp, s': Vp, t: Tid, m: Mx)
    requires Inv(s) && t == s.cur == s'.cur && Get(s, t).pc == InLock(m) && GoesOn(s, s', t)
    requires s'.ioQ == s.ioQ && s'.conds == s.conds
    requires s'.mutexes == s.mutexes[m := MutexOf(s, m).(waitQ := Without(MutexOf(s, m).waitQ, t))]
    ensures Inv(s')
  {
    assert Coherent(Get(s, t));
    SameIoQ(s, s', t);
    LockQLeft(s, s', t, m);
    TermAway(s, s', t);
    GoingOnKeeps(s, s', t);
  }

  /** The owner of a mutex changes; threads stay as they are. */
  lemma OwnerKeeps(s: Vp, m: Mx, owner: Option<Tid>)
    requires Inv(s)
    requires forall t: Tid :: OnMutex(Get(s, t), m) && Get(s, t).state.LOCK_WAIT? ==> owner.Some? && owner != Some(t)
    requires forall t: Tid :: OnMutex(Get(s, t), m) && !Get(s, t).state.LOCK_WAIT? ==> owner == Some(t) || Get(s, t).interrupt
    ensures Inv(WithMutex(s, m, MutexOf(s, m).(owner := owner)))
  {
    var s' := WithMutex(s, m, MutexOf(s, m).(owner := owner));
    OwnerObjects(s, s', m, owner);
    SameThreads(s, s');
  }

  lemma OwnerObjects(s: Vp, s': Vp, m: Mx, owner: Option<Tid>)
    requires ObjectsOk(s) && s' == WithMutex(s, m, MutexOf(s, m).(owner := owner))
    requires forall t: Tid :: OnMutex(Get(s, t), m) && Get(s, t).state.LOCK_WAIT? ==> owner.Some? && owner != Some(t)
    requires forall t: Tid :: OnMutex(Get(s, t), m) && !Get(s, t).state.LOCK_WAIT? ==> owner == Some(t) || Get(s, t).interrupt
    ensures ObjectsOk(s')
  {
    assert forall t: Tid :: Get(s', t) == Get(s, t);
    forall cv: Cv ensures CondOk(s', cv) {
      assert CondOk(s, cv);
    }
    forall n: Mx ensures MutexOk(s', n) {
      assert MutexOk(s, n);
      assert MutexOf(s', n) == if n == m then MutexOf(s, m).(owner := owner) else MutexOf(s, n);
    }
  }

  /** Only mutexes (or the clock) change. */
  lemma SameThreads(s: Vp, s': Vp)
    requires Agrees(s, Some(s.cur)) && (s.cur == s.idle ==> s.runQ == [])
    requires s' == s.(mutexes := s'.mutexes, lastClock := s'.lastClock) && ObjectsOk(s')
    ensures Inv(s')
  {
    forall t: Tid ensures Get(s', t) == Get(s, t) {
    }
    ThreadsChange(s, s', s.cur, Some(s.cur), Some(s.cur));
    assert SameConds(s, s');
    assert Get(s, s.cur).pc.InCondWait? ==> UserCond(s, Get(s, s.cur).pc.cv);
    assert Get(s, s.cur).pc.InJoin? ==> JoinOk(s, Get(s, s.cur));
    TermChange(s, s', s.cur);
    LiveKept(s, s');
  }
}
