/** The invariant over the loops, the events and whole runs of the scheduler. */
module SchedulerRuns {
  import opened HeapLayout
  import opened PollSets
  import opened SeqFacts
  import opened Timeouts
  import opened Scheduler
  import opened SchedulerInvariant
  import opened SchedulerSteps

  // --------------------------------------------------------------- the loops

  /** Whoever on `q` is in a join and still waits has a zombie to collect. */
  ghost predicate JoinersReady(s: Vp, q: seq<Tid>) {
    forall i :: 0 <= i < |q| && Get(s, q[i]).pc.InJoin? && Get(s, q[i]).state.COND_WAIT? ==>
      Get(s, Get(s, q[i]).pc.target).state.ZOMBIE?
  }

  function Signalled(s: Vp, t: Tid): Vp {
    Wake(With(s, t, Noted(Get(s, t), BySignal)), t)
  }

  lemma SignalTurn(s: Vp, q: seq<Tid>, running: Option<Tid>)
    requires q != [] && Agrees(s, running) && JoinersReady(s, q) && Get(s, q[0]).state.COND_WAIT?
    ensures Agrees(Signalled(s, q[0]), running)
  {
    SignalledJoiner(s, q[0]);
    SignalOne(s, q[0], running);
  }

  lemma SignalRest(s: Vp, q: seq<Tid>)
    requires q != [] && JoinersReady(s, q) && Get(s, q[0]).state.COND_WAIT?
    ensures JoinersReady(Signalled(s, q[0]), q[1..])
  {
    var s1 := Signalled(s, q[0]);
    forall i | 0 <= i < |q[1..]| && Get(s1, q[1..][i]).pc.InJoin? && Get(s1, q[1..][i]).state.COND_WAIT?
      ensures Get(s1, Get(s1, q[1..][i]).pc.target).state.ZOMBIE?
    {
      assert q[1..][i] == q[i + 1] && q[i + 1] != q[0];
    }
  }

  lemma {:induction false} SignalKeeps(s: Vp, q: seq<Tid>, broadcast: bool, running: Option<Tid>)
    requires Agrees(s, running) && JoinersReady(s, q)
    ensures Agrees(SignalAlong(s, q, broadcast), running)
    ensures SignalAlong(s, q, broadcast).cur == s.cur
    decreases |q|
  {
    if q != [] {
      if Get(s, q[0]).state.COND_WAIT? {
        SignalTurn(s, q, running);
        SignalRest(s, q);
        if broadcast {
          SignalKeeps(Signalled(s, q[0]), q[1..], broadcast, running);
        }
      } else {
        assert forall i :: 0 <= i < |q[1..]| ==> q[1..][i] == q[i + 1];
        SignalKeeps(s, q[1..], broadcast, running);
      }
    }
  }

  lemma SignalledJoiner(s: Vp, t: Tid)
    requires TermOk(s) && Get(s, t).state.COND_WAIT? && Coherent(Get(s, t))
    requires Get(s, t).pc.InJoin? ==> Get(s, Get(s, t).pc.target).state.ZOMBIE?
    ensures JoinerOk(s, Noted(Get(s, t), BySignal))
  {
    assert Get(s, t).pc.InJoin? ==> JoinOk(s, Get(s, t));
  }

  /** The waiters that nobody has woken are all on `q`. */
  ghost predicate AllOn(s: Vp, m: Mx, q: seq<Tid>) {
    forall t: Tid :: OnMutex(Get(s, t), m) && Get(s, t).state.LOCK_WAIT? ==> t in q
  }

  lemma {:induction false} HandOverKeeps(s: Vp, m: Mx, q: seq<Tid>)
    requires Calls(s) && MutexOf(s, m).owner == Some(s.cur) && AllOn(s, m, q)
    requires forall i :: 0 <= i < |q| ==> OnMutex(Get(s, q[i]), m)
    ensures Inv(HandOver(s, m, q))
  {
    assert MutexOk(s, m);
    if q == [] {
      OwnerKeeps(s, m, None);
    } else if Get(s, q[0]).state.LOCK_WAIT? {
      assert OnMutex(Get(s, q[0]), m);
      assert s.cur != s.idle;
      HandOverOne(s, m, q[0], Some(s.cur));
    } else {
      assert q == [q[0]] + q[1..];
      assert forall i :: 0 <= i < |q[1..]| ==> q[1..][i] == q[i + 1];
      HandOverKeeps(s, m, q[1..]);
    }
  }

  lemma UnlockKeeps(s: Vp, m: Mx)
    requires Calls(s)
    ensures Inv(MutexUnlock(s, m).0)
  {
    if MutexOf(s, m).owner == Some(s.cur) {
      var q := MutexOf(s, m).waitQ;
      OnQueue(s, m);
      HandOverKeeps(s, m, q);
    }
  }

  lemma OnQueue(s: Vp, m: Mx)
    requires ObjectsOk(s)
    ensures forall t: Tid :: t in MutexOf(s, m).waitQ <==> OnMutex(Get(s, t), m)
  {
    assert MutexOk(s, m);
    var q := MutexOf(s, m).waitQ;
    forall t: Tid ensures t in q <==> OnMutex(Get(s, t), m) {
      assert t in q <==> multiset(q)[t] > 0;
    }
  }

  lemma {:induction false} ExpireAllKeeps(s: Vp, now: int, running: Option<Tid>)
    requires Agrees(s, running)
    ensures Agrees(ExpireAll(s, now), running)
    decreases |s.sleepQ|
  {
    var s' := ExpireAll(s, now);
    if s.sleepQ != [] && At(s.sleepQ, 1).due <= now {
      ExpireOne(s, now, running);
      ExpireAllKeeps(Expire(s, now), now, running);
      assert s' == ExpireAll(Expire(s, now), now);
    } else {
      assert s' == s;
    }
  }

  lemma {:induction false} ExpireAllAside(s: Vp, now: int)
    ensures ExpireAll(s, now).cur == s.cur && ExpireAll(s, now).idle == s.idle
    decreases |s.sleepQ|
  {
    if s.sleepQ != [] && At(s.sleepQ, 1).due <= now {
      ExpireAllAside(Expire(s, now), now);
    }
  }

  /** Every thread with an element on the io queue is in IO_WAIT. */
  ghost predicate AllWait(s: Vp, i: nat) {
    forall j :: i <= j < |s.ioQ| ==> Get(s, s.ioQ[j].thread).state.IO_WAIT?
  }

  /** The elements of the io queue belong to different threads. */
  lemma PollersDiffer(s: Vp, i: nat, j: nat)
    requires IoQOk(s) && i < j < |s.ioQ|
    ensures s.ioQ[i].thread != s.ioQ[j].thread
  {
    var w := Pollers(s.ioQ);
    if w[i] == w[j] {
      CountsTwice(w, i, j);
      assert false;
    }
  }

  lemma WakeIoRest(s: Vp, i: nat, pds: seq<PollFd>)
    requires IoQOk(s) && i < |s.ioQ| && AllWait(s, i)
    ensures AllWait(WakeIo(s, i, pds), i)
  {
    var s1 := WakeIo(s, i, pds);
    forall j | i <= j < |s1.ioQ| ensures Get(s1, s1.ioQ[j].thread).state.IO_WAIT? {
      assert s1.ioQ[j] == s.ioQ[j + 1];
      PollersDiffer(s, i, j + 1);
    }
  }

  lemma WakeIoTurn(s: Vp, i: nat, pds: seq<PollFd>, running: Option<Tid>)
    requires Agrees(s, running) && i < |s.ioQ| && AllWait(s, i)
    ensures Agrees(WakeIo(s, i, pds), running) && AllWait(WakeIo(s, i, pds), i)
    ensures WakeIo(s, i, pds).cur == s.cur && WakeIo(s, i, pds).idle == s.idle
  {
    WakeIoOne(s, i, pds, running);
    WakeIoRest(s, i, pds);
  }

  lemma ReportedTurn(s: Vp, i: nat, pds: seq<PollFd>, running: Option<Tid>)
    requires Agrees(s, running) && i < |s.ioQ| && AllWait(s, i)
    ensures Agrees(KeepIo(s, i, pds), running) && AllWait(KeepIo(s, i, pds), i + 1)
  {
    ReportedKeeps(s, KeepIo(s, i, pds), running);
    ReportedRest(s, i, pds);
  }

  lemma ReportedRest(s: Vp, i: nat, pds: seq<PollFd>)
    requires i < |s.ioQ| && AllWait(s, i)
    ensures AllWait(KeepIo(s, i, pds), i + 1)
  {
  }

  /** The io queue may be served from element `i` on. */
  ghost predicate Serving(s: Vp, i: nat, running: Option<Tid>, cur: Tid, idle: Tid) {
    Agrees(s, running) && AllWait(s, i) && s.cur == cur && s.idle == idle
  }

  lemma {:induction false} ServeIoKeeps(s: Vp, i: nat, answer: Answer, running: Option<Tid>, cur: Tid, idle: Tid)
    requires Serving(s, i, running, cur, idle)
    ensures Serving(ServeIo(s, i, answer), |ServeIo(s, i, answer).ioQ|, running, cur, idle)
    decreases |s.ioQ| - i
  {
    if i < |s.ioQ| {
      var pds := FireAll(s.ioQ[i].pds, answer);
      var s', n := if Notified(pds) then WakeIo(s, i, pds) else KeepIo(s, i, pds), if Notified(pds) then i else i + 1;
      ServeIoTurn(s, i, answer, running, cur, idle);
      ServeIoKeeps(s', n, answer, running, cur, idle);
      assert ServeIo(s, i, answer) == ServeIo(s', n, answer);
    }
  }

  lemma ServeIoTurn(s: Vp, i: nat, answer: Answer, running: Option<Tid>, cur: Tid, idle: Tid)
    requires Serving(s, i, running, cur, idle) && i < |s.ioQ|
    ensures var pds := FireAll(s.ioQ[i].pds, answer);
      if Notified(pds) then Serving(WakeIo(s, i, pds), i, running, cur, idle)
      else Serving(KeepIo(s, i, pds), i + 1, running, cur, idle)
  {
    var pds := FireAll(s.ioQ[i].pds, answer);
    if Notified(pds) {
      WakeIoTurn(s, i, pds, running);
    } else {
      ReportedTurn(s, i, pds, running);
    }
  }

  lemma ReportedKeeps(s: Vp, s': Vp, running: Option<Tid>)
    requires Agrees(s, running) && s' == s.(ioQ := s'.ioQ) && Pollers(s'.ioQ) == Pollers(s.ioQ)
    ensures Agrees(s', running)
  {
    SameButQueues(s, s', running);
  }

  /** No thread record, no object and no queue of threads changes. */
  lemma SameButQueues(s: Vp, s': Vp, running: Option<Tid>)
    requires Agrees(s, running) && s' == s.(ioQ := s'.ioQ, lastClock := s'.lastClock) && IoQOk(s')
    ensures Agrees(s', running)
  {
    assert forall t: Tid :: Get(s', t) == Get(s, t);
    assert forall cv: Cv :: WaitQ(s', cv) == WaitQ(s, cv);
    assert forall m: Mx :: MutexOf(s', m) == MutexOf(s, m);
    SameThreadsOk(s, s', running);
    SameObjectsOk(s, s');
    SameTermOk(s, s');
    LiveKept(s, s');
  }

  lemma SameThreadsOk(s: Vp, s': Vp, running: Option<Tid>)
    requires ThreadsOk(s, running) && s'.idle == s.idle && forall t: Tid :: Get(s', t) == Get(s, t)
    ensures ThreadsOk(s', running)
  {
  }

  lemma SameObjectsOk(s: Vp, s': Vp)
    requires ObjectsOk(s) && forall t: Tid :: Get(s', t) == Get(s, t)
    requires forall cv: Cv :: WaitQ(s', cv) == WaitQ(s, cv)
    requires forall m: Mx :: MutexOf(s', m) == MutexOf(s, m)
    ensures ObjectsOk(s')
  {
    forall cv: Cv ensures CondOk(s', cv) {
      assert CondOk(s, cv);
    }
    forall m: Mx ensures MutexOk(s', m) {
      assert MutexOk(s, m);
    }
  }

  lemma SameTermOk(s: Vp, s': Vp)
    requires TermOk(s) && s'.conds == s.conds && forall t: Tid :: Get(s', t) == Get(s, t)
    ensures TermOk(s')
  {
    forall u: Tid | Get(s', u).pc.InJoin? ensures JoinOk(s', Get(s', u)) {
      assert JoinOk(s, Get(s, u));
    }
    forall u: Tid | Get(s', u).pc.InCondWait? ensures UserCond(s', Get(s', u).pc.cv) {
      assert UserCond(s, Get(s, u).pc.cv);
    }
  }

  /** When the idle thread runs, the run queue is empty; so every thread on the io
      queue is still in IO_WAIT, none was woken by a timeout or an interrupt. */
  lemma DispatchFindsWaiters(s: Vp)
    requires Inv(s) && s.cur == s.idle
    ensures forall j :: 0 <= j < |s.ioQ| ==> Get(s, s.ioQ[j].thread).state.IO_WAIT? && s.ioQ[j].thread !in s.runQ
  {
    forall j | 0 <= j < |s.ioQ| ensures Get(s, s.ioQ[j].thread).state.IO_WAIT? {
      var t := s.ioQ[j].thread;
      assert Pollers(s.ioQ)[j] == t;
      assert t in multiset(Pollers(s.ioQ));
      assert OnIo(Get(s, t)) && Coherent(Get(s, t));
      assert multiset(s.runQ)[t] == 0;
    }
  }

  lemma IdleKeeps(s: Vp, answer: Answer, now: int)
    requires Inv(s) && Me(s).pc.InIdle?
    ensures Inv(IdleTurn(s, answer, now).0)
  {
    DispatchFindsWaiters(s);
    var s1 := ServeIo(s, 0, answer);
    ServeIoKeeps(s, 0, answer, Some(s.cur), s.cur, s.idle);
    SameButQueues(s1, s1.(lastClock := now), Some(s.cur));
    ExpireAllKeeps(s1.(lastClock := now), now, Some(s.cur));
    ExpireAllAside(s1.(lastClock := now), now);
    var s2 := CheckClock(s1, now);
    IdleBlocks(s2);
    ScheduleKeeps(Block(s2, RUNNABLE, InIdle));
  }

  lemma IdleBlocks(s: Vp)
    requires Agrees(s, Some(s.cur)) && s.cur == s.idle
    ensures Agrees(Block(s, RUNNABLE, InIdle), None)
  {
    assert Coherent(Me(s));
    IdleWaits(s, Block(s, RUNNABLE, InIdle), s.cur);
  }

  /** The idle thread is now waiting for its turn. */
  lemma IdleWaits(s: Vp, s': Vp, t: Tid)
    requires Agrees(s, Some(t)) && t == s.idle && Get(s, t).pc.InIdle? && Only(s, s', t)
    requires Get(s', t) == Get(s, t).(state := RUNNABLE, pc := InIdle)
    requires s'.runQ == s.runQ && s'.zombieQ == s.zombieQ && s'.sleepQ == s.sleepQ && s'.ioQ == s.ioQ
    requires s'.conds == s.conds && s'.mutexes == s.mutexes && s'.active == s.active
    ensures Agrees(s', None)
  {
    assert Coherent(Get(s, t));
    ThreadsChange(s, s', t, Some(t), None);
    SameIoQ(s, s', t);
    ObjectsAway(s, s', t);
    TermAway(s, s', t);
    LiveChange(s, s', t);
  }

  // -------------------------------------------------------- create, exit, join

  lemma ExitBlocks(s: Vp, cv: Cv)
    requires Calls(s) && Me(s).term == Some(cv)
    ensures var s' := Block(s.(active := s.active - 1, zombieQ := s.zombieQ + [s.cur]), ZOMBIE, InExit);
      Agrees(s', None) && JoinersReady(s', WaitQ(s', cv))
  {
    var s' := Block(s.(active := s.active - 1, zombieQ := s.zombieQ + [s.cur]), ZOMBIE, InExit);
    assert s.cur != s.idle;
    ZombieKeeps(s, s', s.cur);
    JoinersAreReady(s', s.cur, cv);
  }

  lemma JoinersAreReady(s: Vp, t: Tid, cv: Cv)
    requires Agrees(s, None) && Get(s, t).term == Some(cv) && Get(s, t).state.ZOMBIE?
    ensures JoinersReady(s, WaitQ(s, cv))
  {
    JoinersOf(s, t, cv);
  }

  /** The current thread is now a zombie. */
  lemma ZombieKeeps(s: Vp, s': Vp, t: Tid)
    requires Agrees(s, Some(t)) && Get(s, t).pc.User? && Get(s, t).term.Some? && t != s.idle && Only(s, s', t)
    requires Get(s', t) == Get(s, t).(state := ZOMBIE, pc := InExit)
    requires s'.runQ == s.runQ && s'.zombieQ == s.zombieQ + [t] && s'.sleepQ == s.sleepQ && s'.ioQ == s.ioQ
    requires s'.conds == s.conds && s'.mutexes == s.mutexes && s'.active == s.active - 1
    ensures Agrees(s', None)
  {
    assert Coherent(Get(s, t));
    ThreadsChange(s, s', t, Some(t), None);
    ExitQueues(s, s', t);
    SameIoQ(s, s', t);
    ObjectsAway(s, s', t);
    TermAway(s, s', t);
    ExitCounts(s, s', t);
  }

  lemma ExitQueues(s: Vp, s': Vp, t: Tid)
    requires RunQOk(s) && ZombieQOk(s) && SleepQOk(s) && Only(s, s', t)
    requires Get(s, t).state.RUNNING? && Get(s', t) == Get(s, t).(state := ZOMBIE, pc := InExit)
    requires s'.runQ == s.runQ && s'.zombieQ == s.zombieQ + [t] && s'.sleepQ == s.sleepQ
    ensures RunQOk(s') && ZombieQOk(s') && SleepQOk(s')
  {
  }

  /** One thread is no longer alive. */
  lemma ExitCounts(s: Vp, s': Vp, t: Tid)
    requires ActiveOk(s) && Only(s, s', t) && s'.active == s.active - 1
    requires Alive(Get(s, t)) && !Alive(Get(s', t))
    ensures ActiveOk(s')
  {
    forall u: Tid ensures u in Live(s') <==> u in Live(s) - {t} {
      assert u in Live(s) <==> Alive(Get(s, u));
      assert u in Live(s') <==> Alive(Get(s', u));
    }
    assert t in Live(s);
    assert Live(s') == Live(s) - {t};
  }

  /** Whoever waits on a termination variable is in a join of its thread. */
  lemma JoinersOf(s: Vp, t: Tid, cv: Cv)
    requires ObjectsOk(s) && TermOk(s) && Get(s, t).term == Some(cv)
    ensures forall u: Tid :: OnCond(Get(s, u), cv) ==> Get(s, u).pc == InJoin(t, cv, Get(s, u).pc.woke)
    ensures forall u: Tid :: u in WaitQ(s, cv) <==> OnCond(Get(s, u), cv)
  {
    assert CondOk(s, cv);
    forall u: Tid ensures u in WaitQ(s, cv) <==> OnCond(Get(s, u), cv) {
      assert u in WaitQ(s, cv) <==> multiset(WaitQ(s, cv))[u] > 0;
    }
    forall u: Tid | OnCond(Get(s, u), cv) ensures Get(s, u).pc == InJoin(t, cv, Get(s, u).pc.woke) {
      var x := Get(s, u);
      assert s.conds[cv].termOf == Some(t);
      assert x.pc.InCondWait? ==> UserCond(s, cv);
      assert x.pc.InJoin? ==> JoinOk(s, x);
    }
  }

  lemma ExitKeeps(s: Vp)
    requires Calls(s)
    ensures Inv(ThreadExit(s).0)
  {
    match Me(s).term
    case Some(cv) =>
      var s' := Block(s.(active := s.active - 1, zombieQ := s.zombieQ + [s.cur]), ZOMBIE, InExit);
      ExitBlocks(s, cv);
      SignalKeeps(s', WaitQ(s', cv), false, None);
      ScheduleKeeps(SignalAlong(s', WaitQ(s', cv), false));
    case None =>
      ExitForGood(s);
      ScheduleKeeps(With(s.(active := s.active - 1), s.cur, Me(s).(pc := Dead)));
  }

  lemma ExitForGood(s: Vp)
    requires Calls(s) && Me(s).term == None
    ensures Agrees(With(s.(active := s.active - 1), s.cur, Me(s).(pc := Dead)), None)
  {
    var t, s' := s.cur, With(s.(active := s.active - 1), s.cur, Me(s).(pc := Dead));
    assert t != s.idle && Only(s, s', t);
    ObjectsAway(s, s', t);
    NobodyJoins(s, t);
    TermDies(s, s', t);
    ExitCounts(s, s', t);
    Dies(s, s', t);
  }

  /** The current thread is gone. */
  lemma Dies(s: Vp, s': Vp, t: Tid)
    requires Agrees(s, Some(t)) && Only(s, s', t) && t != s.idle && (Get(s, t).pc.User? || Get(s, t).pc.InExit?)
    requires Get(s', t) == Get(s, t).(term := None, pc := Dead)
    requires s'.runQ == s.runQ && s'.zombieQ == s.zombieQ && s'.sleepQ == s.sleepQ && s'.ioQ == s.ioQ
    requires ObjectsOk(s') && TermOk(s') && ActiveOk(s')
    ensures Agrees(s', None)
  {
    assert Coherent(Get(s, t));
    ThreadsChange(s, s', t, Some(t), None);
    SameIoQ(s, s', t);
    DyingQueues(s, s', t);
  }

  lemma DyingQueues(s: Vp, s': Vp, t: Tid)
    requires RunQOk(s) && ZombieQOk(s) && SleepQOk(s) && Only(s, s', t) && Get(s, t).state.RUNNING?
    requires Get(s', t) == Get(s, t).(term := None, pc := Dead)
    requires s'.runQ == s.runQ && s'.zombieQ == s.zombieQ && s'.sleepQ == s.sleepQ
    ensures RunQOk(s') && ZombieQOk(s') && SleepQOk(s')
  {
  }

  /** No thread is in a join of a thread that cannot be joined (any more). */
  lemma NobodyJoins(s: Vp, t: Tid)
    requires TermOk(s) && (Get(s, t).term == None || !Unjoined(Get(s, t)))
    ensures forall u: Tid :: Get(s, u).pc.InJoin? ==> Get(s, u).pc.target != t
  {
    forall u: Tid | Get(s, u).pc.InJoin? ensures Get(s, u).pc.target != t {
      assert JoinOk(s, Get(s, u));
    }
  }

  /** A thread that nobody joins dies; its termination variable, if any, goes with it. */
  lemma TermDies(s: Vp, s': Vp, t: Tid)
    requires TermOk(s) && Only(s, s', t) && Get(s', t).term == None && Get(s', t).pc.Dead?
    requires s'.conds == if Get(s, t).term.Some? then s.conds - {Get(s, t).term.value} else s.conds
    requires forall u: Tid :: Get(s, u).pc.InJoin? ==> Get(s, u).pc.target != t
    ensures TermOk(s')
  {
    forall u: Tid | Get(s', u).term.Some?
      ensures Get(s', u).term.value in s'.conds && s'.conds[Get(s', u).term.value].termOf == Some(u)
    {
      assert Get(s, u).term.value in s.conds;
    }
    forall u: Tid | Get(s', u).pc.InJoin? ensures JoinOk(s', Get(s', u)) {
      assert JoinOk(s, Get(s, u));
    }
    forall u: Tid | Get(s', u).pc.InCondWait? ensures UserCond(s', Get(s', u).pc.cv) {
      assert UserCond(s, Get(s, u).pc.cv);
    }
  }

  /** When a thread that was joined goes on, nobody waits for its end any more,
      so its termination variable is destroyed. */
  lemma NobodyWaits(s: Vp, t: Tid)
    requires ObjectsOk(s) && TermOk(s) && Get(s, t).term.Some? && !Unjoined(Get(s, t))
    ensures WaitQ(s, Get(s, t).term.value) == []
  {
    var cv := Get(s, t).term.value;
    NobodyJoins(s, t);
    JoinersOf(s, t, cv);
    forall u: Tid ensures u !in WaitQ(s, cv) {
      assert u in WaitQ(s, cv) <==> OnCond(Get(s, u), cv);
    }
    HeadIsThere(WaitQ(s, cv));
  }

  lemma HeadIsThere(q: seq<Tid>)
    ensures q == [] || q[0] in q
  {
  }

  lemma ExitGoes(s: Vp, cv: Cv)
    requires Inv(s) && Me(s).pc.InExit? && Me(s).term == Some(cv) && WaitQ(s, cv) == []
    ensures Agrees(With(s.(conds := s.conds - {cv}), s.cur, Me(s).(term := None, pc := Dead)), None)
  {
    var t, s' := s.cur, With(s.(conds := s.conds - {cv}), s.cur, Me(s).(term := None, pc := Dead));
    assert t != s.idle && Only(s, s', t);
    NobodyJoins(s, t);
    DeadObjects(s, s', t);
    TermDies(s, s', t);
    LiveChange(s, s', t);
    Dies(s, s', t);
  }

  lemma ExitResumedKeeps(s: Vp)
    requires Inv(s) && Me(s).pc.InExit?
    ensures Inv(ExitResumed(s).0)
  {
    assert Coherent(Me(s));
    NobodyWaits(s, s.cur);
    ExitGoes(s, Me(s).term.value);
    ScheduleKeeps(With(s.(conds := s.conds - {Me(s).term.value}), s.cur, Me(s).(term := None, pc := Dead)));
  }

  lemma DeadObjects(s: Vp, s': Vp, t: Tid)
    requires ObjectsOk(s) && Only(s, s', t) && s'.mutexes == s.mutexes
    requires forall cv: Cv :: WaitQ(s', cv) == WaitQ(s, cv)
    requires Get(s, t).pc.InExit? && Get(s', t).pc.Dead?
    ensures ObjectsOk(s')
  {
    forall cv: Cv ensures CondOk(s', cv) {
      assert CondOk(s, cv);
    }
    forall m: Mx ensures MutexOk(s', m) {
      assert MutexOk(s, m);
    }
  }

  /** A zombie that nobody else waits for is collected. */
  lemma JoinedKeeps(s: Vp, t: Tid, cv: Cv)
    requires Calls(s) && Get(s, t).state.ZOMBIE? && Get(s, t).term == Some(cv) && WaitQ(s, cv) == []
    ensures Inv(Joined(s, t))
  {
    var s' := Joined(s, t);
    assert Coherent(Get(s, t)) && Coherent(Me(s));
    ThreadsChange(s, s', t, Some(s.cur), Some(s.cur));
    JoinedQueues(s, s', t);
    SameIoQ(s, s', t);
    ObjectsAway(s, s', t);
    JoinedTerm(s, s', t, cv);
    LiveChange(s, s', t);
  }

  lemma JoinedQueues(s: Vp, s': Vp, t: Tid)
    requires RunQOk(s) && ZombieQOk(s) && SleepQOk(s) && Only(s, s', t) && t != s.idle
    requires Get(s, t).state.ZOMBIE? && Get(s', t) == Get(s, t).(state := RUNNABLE)
    requires s'.runQ == s.runQ + [t] && s'.zombieQ == Without(s.zombieQ, t) && s'.sleepQ == s.sleepQ
    ensures RunQOk(s') && ZombieQOk(s') && SleepQOk(s')
  {
    WithoutCounts(s.zombieQ, t);
  }

  lemma JoinedTerm(s: Vp, s': Vp, t: Tid, cv: Cv)
    requires ObjectsOk(s) && TermOk(s) && Only(s, s', t) && s'.conds == s.conds
    requires Get(s, t).term == Some(cv) && WaitQ(s, cv) == [] && Get(s, t).pc.InExit?
    requires Get(s', t) == Get(s, t).(state := RUNNABLE)
    ensures TermOk(s')
  {
    forall u: Tid | Get(s', u).pc.InJoin? ensures JoinOk(s', Get(s', u)) {
      assert JoinOk(s, Get(s, u));
      if Get(s, u).pc.target == t {
        WaitersExist(s, u);
        assert false;
      }
    }
    forall u: Tid | Get(s', u).pc.InCondWait? ensures UserCond(s', Get(s', u).pc.cv) {
      assert UserCond(s, Get(s, u).pc.cv);
    }
  }

  lemma JoinLoopKeeps(s: Vp, t: Tid, cv: Cv)
    requires Calls(s) && Get(s, t).term == Some(cv) && Unjoined(Get(s, t)) && WaitQ(s, cv) == []
    ensures Inv(JoinLoop(s, t, cv).0)
  {
    if Get(s, t).state.ZOMBIE? {
      JoinedKeeps(s, t, cv);
    } else if Me(s).interrupt {
      ClearKeeps(s);
    } else {
      JoinBlocks(s, t, cv);
      ScheduleKeeps(Block(WithWaitQ(s, cv, WaitQ(s, cv) + [s.cur]), COND_WAIT, InJoin(t, cv, Waiting)));
    }
  }

  lemma JoinResumedKeeps(s: Vp)
    requires Inv(s) && Me(s).pc.InJoin?
    ensures Inv(JoinResumed(s, Me(s).pc.target, Me(s).pc.cv).0)
  {
    var t, cv := Me(s).pc.target, Me(s).pc.cv;
    JoinTarget(s);
    CondResumedKeeps(s);
    CondResumedTarget(s, cv, t);
    JoinAfterWait(s, CondResumed(s, cv).0, t, cv);
  }

  lemma JoinAfterWait(s: Vp, s1: Vp, t: Tid, cv: Cv)
    requires s1 == CondResumed(s, cv).0 && !Me(s).timedOut && Calls(s1)
    requires Get(s1, t).term == Some(cv) && Unjoined(Get(s1, t)) && WaitQ(s1, cv) == []
    ensures Inv(JoinResumed(s, t, cv).0)
  {
    if !Me(s).interrupt {
      JoinLoopKeeps(s1, t, cv);
    }
  }

  /** Whom a joining thread waits for, and why it goes on without an interrupt. */
  lemma JoinTarget(s: Vp)
    requires Inv(s) && Me(s).pc.InJoin?
    ensures Get(s, Me(s).pc.target).term == Some(Me(s).pc.cv) && Unjoined(Get(s, Me(s).pc.target))
    ensures !Me(s).timedOut
  {
    assert JoinOk(s, Me(s)) && Coherent(Me(s));
  }

  /** What the end of a wait leaves of another thread, or of this one. */
  lemma CondResumedTarget(s: Vp, cv: Cv, t: Tid)
    ensures var s1 := CondResumed(s, cv).0;
      Get(s1, t).term == Get(s, t).term && (Unjoined(Get(s, t)) && Me(s).pc.InJoin? ==> Unjoined(Get(s1, t)))
  {
  }

  /** A signalled, uninterrupted join ends at once: its thread is a zombie, and
      the loop is not entered again. */
  lemma JoinEndsAtOnce(s: Vp)
    requires Inv(s) && Me(s).pc.InJoin?
    ensures var (s', outcome) := JoinResumed(s, Me(s).pc.target, Me(s).pc.cv);
      if Me(s).interrupt then outcome == Failed(EINTR)
      else Get(s, Me(s).pc.target).state.ZOMBIE? && outcome == Returned(0) && s'.runQ == s.runQ + [Me(s).pc.target]
  {
    var t := Me(s).pc.target;
    assert JoinOk(s, Me(s)) && Coherent(Me(s));
    var s1 := CondResumed(s, Me(s).pc.cv).0;
    assert t != s.cur ==> Get(s1, t) == Get(s, t);
  }

  lemma CreateKeeps(s: Vp, t: Tid, term: Option<Cv>)
    requires Calls(s) && t !in s.thr && (term.Some? ==> term.value !in s.conds)
    ensures Inv(ThreadCreate(s, t, term).0)
  {
    var s' := ThreadCreate(s, t, term).0;
    assert Coherent(Me(s));
    assert t != s.idle && t != s.cur by {
      assert Get(s, t) == NOBODY;
    }
    CreateDoes(s, t, term);
    ThreadsChange(s, s', t, Some(s.cur), Some(s.cur));
    CreatedQueues(s, s', t);
    SameIoQ(s, s', t);
    CreatedObjects(s, s', t);
    CreatedTerm(s, s', t, term);
    CreatedCounts(s, s', t);
  }

  lemma CreateDoes(s: Vp, t: Tid, term: Option<Cv>)
    requires t !in s.thr && (term.Some? ==> term.value !in s.conds)
    ensures var s' := ThreadCreate(s, t, term).0;
      && Only(s, s', t) && Get(s, t) == NOBODY && Get(s', t) == Thread(RUNNABLE, false, false, false, term, User)
      && Coherent(Get(s', t)) && s'.runQ == s.runQ + [t] && s'.cur == s.cur
      && forall cv: Cv :: WaitQ(s', cv) == WaitQ(s, cv)
  {
  }

  lemma CreatedQueues(s: Vp, s': Vp, t: Tid)
    requires RunQOk(s) && ZombieQOk(s) && SleepQOk(s) && Only(s, s', t) && t != s.idle
    requires Get(s, t) == NOBODY && Get(s', t).state.RUNNABLE? && !Get(s', t).onSleepQ
    requires s'.runQ == s.runQ + [t] && s'.zombieQ == s.zombieQ && s'.sleepQ == s.sleepQ
    ensures RunQOk(s') && ZombieQOk(s') && SleepQOk(s')
  {
  }

  lemma CreatedObjects(s: Vp, s': Vp, t: Tid)
    requires ObjectsOk(s) && Only(s, s', t) && s'.mutexes == s.mutexes
    requires forall cv: Cv :: WaitQ(s', cv) == WaitQ(s, cv)
    requires Get(s, t).pc.Dead? && Get(s', t).pc.User?
    ensures ObjectsOk(s')
  {
    forall cv: Cv ensures CondOk(s', cv) {
      assert CondOk(s, cv);
    }
    forall m: Mx ensures MutexOk(s', m) {
      assert MutexOk(s, m);
    }
  }

  lemma CreatedTerm(s: Vp, s': Vp, t: Tid, term: Option<Cv>)
    requires TermOk(s) && Only(s, s', t) && Get(s, t) == NOBODY && Get(s', t).term == term && Get(s', t).pc.User?
    requires term.Some? ==> term.value !in s.conds
    requires s'.conds == if term.Some? then s.conds[term.value := Cond([], Some(t))] else s.conds
    ensures TermOk(s')
  {
    forall u: Tid | Get(s', u).pc.InJoin? ensures JoinOk(s', Get(s', u)) {
      assert JoinOk(s, Get(s, u));
    }
    forall u: Tid | Get(s', u).pc.InCondWait? ensures UserCond(s', Get(s', u).pc.cv) {
      assert UserCond(s, Get(s, u).pc.cv);
    }
    forall u: Tid | Get(s', u).term.Some?
      ensures Get(s', u).term.value in s'.conds && s'.conds[Get(s', u).term.value].termOf == Some(u)
    {
      assert u != t ==> Get(s, u).term.value in s.conds;
    }
  }

  lemma CreatedCounts(s: Vp, s': Vp, t: Tid)
    requires ActiveOk(s) && Only(s, s', t) && s'.active == s.active + 1
    requires !Alive(Get(s, t)) && Alive(Get(s', t))
    ensures ActiveOk(s')
  {
    forall u: Tid ensures u in Live(s') <==> u in Live(s) + {t} {
      assert u in Live(s) <==> Alive(Get(s, u));
      assert u in Live(s') <==> Alive(Get(s', u));
    }
    assert Live(s') == Live(s) + {t};
  }

  lemma InterruptKeeps(s: Vp, t: Tid)
    requires Calls(s) && !Get(s, t).pc.Dead? && t != s.idle
    ensures Inv(ThreadInterrupt(s, t).0)
  {
    var x := Get(s, t);
    assert Coherent(x) && s.cur != s.idle;
    if Blocked(x) {
      InterruptOne(s, t, Some(s.cur));
    } else if !x.state.ZOMBIE? {
      FlagKeeps(s, t);
    }
  }

  lemma FlagKeeps(s: Vp, t: Tid)
    requires Calls(s) && !Get(s, t).pc.Dead? && t != s.idle && (Get(s, t).state.RUNNING? || Get(s, t).state.RUNNABLE?)
    ensures Inv(With(s, t, Get(s, t).(interrupt := true)))
  {
    var x, s' := Get(s, t), With(s, t, Get(s, t).(interrupt := true));
    assert Coherent(x) && s.cur != s.idle;
    ThreadsChange(s, s', t, Some(s.cur), Some(s.cur));
    FlagQueues(s, s', t);
    FlagTerm(s, s', t);
    LiveChange(s, s', t);
  }

  lemma FlagQueues(s: Vp, s': Vp, t: Tid)
    requires RunQOk(s) && ZombieQOk(s) && SleepQOk(s) && IoQOk(s) && ObjectsOk(s)
    requires s' == With(s, t, Get(s, t).(interrupt := true)) && !Get(s, t).state.LOCK_WAIT?
    ensures RunQOk(s') && ZombieQOk(s') && SleepQOk(s') && IoQOk(s') && ObjectsOk(s')
  {
    var x := Get(s, t);
    assert x.pc.InLock? ==> OnMutex(x, x.pc.m);
    ObjectsChange(s, s', t);
  }

  lemma FlagTerm(s: Vp, s': Vp, t: Tid)
    requires TermOk(s) && s' == With(s, t, Get(s, t).(interrupt := true))
    ensures TermOk(s')
  {
    var x := Get(s, t);
    assert SameConds(s, s');
    assert x.pc.InCondWait? ==> UserCond(s, x.pc.cv);
    assert x.pc.InJoin? ==> JoinOk(s, x);
    TermChange(s, s', t);
  }

  // ---------------------------------------------------------- condition variables

  lemma CondNewKeeps(s: Vp, cv: Cv)
    requires Calls(s) && cv !in s.conds
    ensures Inv(CondNew(s, cv).0)
  {
    CondsChange(s, CondNew(s, cv).0);
  }

  lemma CondDestroyKeeps(s: Vp, cv: Cv)
    requires Calls(s) && UserCond(s, cv)
    ensures Inv(CondDestroy(s, cv).0)
  {
    if WaitQ(s, cv) == [] {
      assert CondOk(s, cv);
      assert forall t: Tid :: !OnCond(Get(s, t), cv);
      CondsChange(s, CondDestroy(s, cv).0);
    }
  }

  /** The variable stays, or one of the program that nobody waits on comes or goes. */
  ghost predicate SameCond(s: Vp, s': Vp, cv: Cv) {
    if cv in s.conds && cv in s'.conds then s'.conds[cv] == s.conds[cv]
    else
      && WaitQ(s, cv) == []
      && (cv in s.conds ==> s.conds[cv].termOf == None)
      && (cv in s'.conds ==> s'.conds[cv].termOf == None)
  }

  /** Variables of the program come and go while nobody waits on them. */
  lemma CondsChange(s: Vp, s': Vp)
    requires Calls(s) && s' == s.(conds := s'.conds)
    requires forall cv: Cv :: WaitQ(s', cv) == WaitQ(s, cv)
    requires forall cv: Cv :: SameCond(s, s', cv)
    ensures Inv(s')
  {
    assert forall t: Tid :: Get(s', t) == Get(s, t);
    SameThreadsOk(s, s', Some(s.cur));
    SameObjectsOk(s, s');
    CondsTerm(s, s');
    LiveKept(s, s');
  }

  lemma CondsTerm(s: Vp, s': Vp)
    requires ObjectsOk(s) && TermOk(s) && s' == s.(conds := s'.conds)
    requires forall cv: Cv :: WaitQ(s', cv) == WaitQ(s, cv)
    requires forall cv: Cv :: SameCond(s, s', cv)
    ensures TermOk(s')
  {
    forall u: Tid | Get(s', u).pc.InJoin? ensures JoinOk(s', Get(s', u)) {
      assert JoinOk(s, Get(s, u));
    }
    forall u: Tid | Get(s', u).pc.InCondWait? ensures UserCond(s', Get(s', u).pc.cv) {
      assert UserCond(s, Get(s, u).pc.cv);
      WaitersExist(s, u);
      assert SameCond(s, s', Get(s, u).pc.cv);
    }
    forall u: Tid | Get(s', u).term.Some?
      ensures Get(s', u).term.value in s'.conds && s'.conds[Get(s', u).term.value].termOf == Some(u)
    {
      var cv := Get(s, u).term.value;
      assert cv in s.conds && s.conds[cv].termOf == Some(u);
      assert SameCond(s, s', cv);
    }
    forall cv: Cv | cv in s'.conds && s'.conds[cv].termOf.Some?
      ensures Get(s', s'.conds[cv].termOf.value).term == Some(cv) && |s'.conds[cv].waitQ| <= 1
    {
      assert SameCond(s, s', cv);
      assert cv in s.conds && s.conds[cv].termOf.Some?;
    }
  }

  /** Nobody waits for the end of a thread on a variable of the program. */
  lemma UserWaiters(s: Vp, cv: Cv)
    requires ObjectsOk(s) && TermOk(s) && UserCond(s, cv)
    ensures forall i :: 0 <= i < |WaitQ(s, cv)| ==> !Get(s, WaitQ(s, cv)[i]).pc.InJoin?
  {
    var q := WaitQ(s, cv);
    assert CondOk(s, cv);
    forall i | 0 <= i < |q| ensures !Get(s, q[i]).pc.InJoin? {
      assert q[i] in multiset(q);
      assert OnCond(Get(s, q[i]), cv);
      assert Get(s, q[i]).pc.InJoin? ==> JoinOk(s, Get(s, q[i]));
    }
  }

  /** No one is on the user variable, so a signal has no joiners to wake. */
  lemma UserSignalKeeps(s: Vp, cv: Cv, broadcast: bool)
    requires Calls(s) && UserCond(s, cv)
    ensures Inv(CondSignal(s, cv, broadcast).0)
  {
    var q := WaitQ(s, cv);
    UserWaiters(s, cv);
    SignalKeeps(s, q, broadcast, Some(s.cur));
    SignalStays(s, q, broadcast);
  }

  lemma {:induction false} SignalStays(s: Vp, q: seq<Tid>, broadcast: bool)
    ensures SignalAlong(s, q, broadcast).cur == s.cur && SignalAlong(s, q, broadcast).idle == s.idle
    decreases |q|
  {
    if q != [] {
      if Get(s, q[0]).state.COND_WAIT? {
        if broadcast {
          SignalStays(Signalled(s, q[0]), q[1..], broadcast);
        }
      } else {
        SignalStays(s, q[1..], broadcast);
      }
    }
  }

  // ---------------------------------------------------------------------- mutexes

  lemma MutexNewKeeps(s: Vp, m: Mx)
    requires Calls(s) && m !in s.mutexes
    ensures Inv(MutexNew(s, m).0)
  {
    SameMutexes(s, MutexNew(s, m).0);
  }

  lemma MutexDestroyKeeps(s: Vp, m: Mx)
    requires Calls(s)
    ensures Inv(MutexDestroy(s, m).0)
  {
    if MutexOf(s, m).owner.None? && MutexOf(s, m).waitQ == [] {
      SameMutexes(s, MutexDestroy(s, m).0);
    }
  }

  lemma SameMutexes(s: Vp, s': Vp)
    requires Calls(s) && s' == s.(mutexes := s'.mutexes) && forall m: Mx :: MutexOf(s', m) == MutexOf(s, m)
    ensures Inv(s')
  {
    SameObjectsOk(s, s');
    SameThreads(s, s');
  }

  /** A free mutex has no waiters that were not interrupted; the caller may take it. */
  lemma TakeKeeps(s: Vp, m: Mx)
    requires Calls(s) && MutexOf(s, m).owner == None
    ensures Inv(WithMutex(s, m, MutexOf(s, m).(owner := Some(s.cur))))
  {
    assert MutexOk(s, m);
    OwnerKeeps(s, m, Some(s.cur));
  }

  lemma LockKeeps(s: Vp, m: Mx)
    requires Calls(s)
    ensures Inv(MutexLock(s, m).0)
  {
    var x := MutexOf(s, m);
    if Me(s).interrupt {
      ClearKeeps(s);
    } else if x.owner.None? {
      TakeKeeps(s, m);
    } else if x.owner != Some(s.cur) {
      LockBlocks(s, m);
      ScheduleKeeps(Block(WithMutex(s, m, x.(waitQ := x.waitQ + [s.cur])), LOCK_WAIT, InLock(m)));
    }
  }

  lemma TryLockKeeps(s: Vp, m: Mx)
    requires Calls(s)
    ensures Inv(MutexTryLock(s, m).0)
  {
    if MutexOf(s, m).owner.None? {
      TakeKeeps(s, m);
    }
  }

  // ------------------------------------------------------------- polls and sleeps

  lemma PollKeeps(s: Vp, pds: seq<PollFd>, accepted: bool, timeout: Option<nat>)
    requires Calls(s)
    ensures Inv(Poll(s, pds, accepted, timeout).0)
  {
    if Me(s).interrupt {
      ClearKeeps(s);
    } else if accepted {
      PollBlocks(s, Strip(pds), timeout);
      ScheduleKeeps(Block(AddSleepQ(s.(ioQ := s.ioQ + [PollQ(s.cur, Strip(pds))]), s.cur, timeout), IO_WAIT, InPoll(None)));
    }
  }

  lemma USleepKeeps(s: Vp, timeout: Option<nat>)
    requires Calls(s)
    ensures Inv(USleep(s, timeout).0)
  {
    if Me(s).interrupt {
      ClearKeeps(s);
    } else {
      SleepBlocks(s, timeout);
      ScheduleKeeps(Block(AddSleepQ(s, s.cur, timeout), if timeout.Some? then SLEEPING else SUSPENDED, InSleep));
    }
  }

  lemma CondWaitKeeps(s: Vp, cv: Cv, timeout: Option<nat>)
    requires Calls(s) && UserCond(s, cv)
    ensures Inv(CondTimedWait(s, cv, timeout).0)
  {
    if Me(s).interrupt {
      ClearKeeps(s);
    } else {
      CondWaitBlocks(s, cv, timeout);
      ScheduleKeeps(Block(AddSleepQ(WithWaitQ(s, cv, WaitQ(s, cv) + [s.cur]), s.cur, timeout), COND_WAIT, InCondWait(cv, Waiting)));
    }
  }

  // ------------------------------------------------------------------ all events

  lemma JoinKeeps(s: Vp, t: Tid)
    requires Calls(s) && Unjoined(Get(s, t))
    ensures Inv(ThreadJoin(s, t).0)
  {
    var term := Get(s, t).term;
    if term.Some? && t != s.cur && WaitQ(s, term.value) == [] {
      JoinLoopKeeps(s, t, term.value);
    }
  }

  lemma ResumeKeeps(s: Vp)
    requires Inv(s)
    ensures Inv(Resume(s).0)
  {
    match Me(s).pc
    case InPoll(_) => PollResumedKeeps(s);
    case InSleep => SleepResumedKeeps(s);
    case InCondWait(_, _) => CondResumedKeeps(s);
    case InJoin(_, _, _) => JoinResumedKeeps(s);
    case InLock(_) => LockResumedKeeps(s);
    case InExit => ExitResumedKeeps(s);
    case _ =>
  }

  /** Every enabled event keeps the invariant. */
  lemma StepKeeps(s: Vp, e: Event)
    requires Inv(s) && Enabled(s, e)
    ensures Inv(Step(s, e))
  {
    match e
    case EvPoll(pds, accepted, timeout) => PollKeeps(s, pds, accepted, timeout);
    case EvSleep(timeout) => USleepKeeps(s, timeout);
    case EvWait(cv, timeout) => CondWaitKeeps(s, cv, timeout);
    case EvSignal(cv, broadcast) => UserSignalKeeps(s, cv, broadcast);
    case EvCondNew(cv) => CondNewKeeps(s, cv);
    case EvCondDestroy(cv) => CondDestroyKeeps(s, cv);
    case EvMutexNew(m) => MutexNewKeeps(s, m);
    case EvMutexDestroy(m) => MutexDestroyKeeps(s, m);
    case EvLock(m) => LockKeeps(s, m);
    case EvTryLock(m) => TryLockKeeps(s, m);
    case EvUnlock(m) => UnlockKeeps(s, m);
    case EvCreate(t, term) => CreateKeeps(s, t, term);
    case EvExit => ExitKeeps(s);
    case EvJoin(t) => JoinKeeps(s, t);
    case EvInterrupt(t) => InterruptKeeps(s, t);
    case EvResume => ResumeKeeps(s);
    case EvIdle(answer, now) => IdleKeeps(s, answer, now);
  }

  /** Every reachable state satisfies the invariant. */
  lemma {:induction false} RunKeeps(s: Vp, es: seq<Event>)
    requires Inv(s) && CanRun(s, es)
    ensures Inv(Run(s, es))
    decreases |es|
  {
    if es != [] {
      StepKeeps(s, es[0]);
      RunKeeps(Step(s, es[0]), es[1..]);
    }
  }
}
