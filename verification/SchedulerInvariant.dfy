/** What every reachable state of the scheduler satisfies: thread states, flags
    and queue membership agree. */
module SchedulerInvariant {
  import opened HeapLayout
  import opened PollSets
  import opened SeqFacts
  import opened Timeouts
  import opened Scheduler

  // ------------------------------------------------------------- one thread

  /** Waiting for something other than its turn to run or to be joined. */
  predicate Blocked(x: Thread) {
    x.state.IO_WAIT? || x.state.LOCK_WAIT? || x.state.COND_WAIT? || x.state.SLEEPING? || x.state.SUSPENDED?
  }

  predicate Waits(x: Thread) {
    x.pc.InCondWait? || x.pc.InJoin?
  }

  predicate OnIo(x: Thread) {
    x.pc == InPoll(None)
  }

  predicate OnCond(x: Thread, cv: Cv) {
    Waits(x) && x.pc.cv == cv
  }

  predicate OnMutex(x: Thread, m: Mx) {
    x.pc == InLock(m)
  }

  /** Counted as active: not the idle thread, and not on its way out. */
  predicate Alive(x: Thread) {
    !x.pc.InIdle? && !x.pc.InExit? && !x.pc.Dead?
  }

  /** State, flags and position of one thread agree. */
  ghost predicate Coherent(x: Thread) {
    && (match x.state
        case RUNNING => true
        case RUNNABLE => !x.pc.Dead?
        case IO_WAIT => OnIo(x)
        case LOCK_WAIT => x.pc.InLock?
        case COND_WAIT => Waits(x)
        case SLEEPING => x.pc.InSleep? && x.onSleepQ
        case SUSPENDED => x.pc.InSleep? && !x.onSleepQ
        case ZOMBIE => x.pc.InExit?)
    && (x.onSleepQ ==> (x.state.IO_WAIT? || x.state.COND_WAIT? || x.state.SLEEPING?) && !x.pc.InJoin?)
    && (Blocked(x) ==> !x.interrupt)
    && (x.timedOut ==> x.pc.InCondWait?)
    && (Waits(x) ==> WokeOk(x))
    && (x.pc.InExit? ==> x.term.Some?)
    && (x.pc.Dead? || x.pc.InIdle? ==> x.term.None?)
  }

  /** The flags say what the note on a waiting thread says. */
  ghost predicate WokeOk(x: Thread)
    requires Waits(x)
  {
    && (x.pc.woke.Waiting? <==> x.state.COND_WAIT?)
    && (x.pc.woke.ByTimeout? <==> x.timedOut)
    && (x.pc.woke.ByTimeout? ==> x.pc.woke.due <= x.pc.woke.now)
    && (x.pc.woke.ByInterrupt? ==> x.interrupt)
  }

  // -------------------------------------------------------------- the queues

  ghost predicate ThreadsOk(s: Vp, running: Option<Tid>) {
    && (forall t: Tid :: Coherent(Get(s, t)))
    && (forall t: Tid :: Get(s, t).state.RUNNING? <==> (running == Some(t) || Get(s, t).pc.Dead?))
    && (running.Some? ==> !Get(s, running.value).pc.Dead?)
    && (forall t: Tid :: Get(s, t).pc.InIdle? <==> t == s.idle)
  }

  /** The RUNNABLE threads, except the idle one, are on the run queue, each once. */
  ghost predicate RunQOk(s: Vp) {
    forall t: Tid :: multiset(s.runQ)[t] == if Get(s, t).state.RUNNABLE? && t != s.idle then 1 else 0
  }

  ghost predicate ZombieQOk(s: Vp) {
    forall t: Tid :: multiset(s.zombieQ)[t] == if Get(s, t).state.ZOMBIE? then 1 else 0
  }

  /** The heap is in order and holds the threads with ON_SLEEPQ, each once. */
  ghost predicate SleepQOk(s: Vp) {
    && HeapOrdered(s.sleepQ)
    && forall t: Tid :: multiset(Whos(s.sleepQ))[t] == if Get(s, t).onSleepQ then 1 else 0
  }

  function Pollers(q: seq<PollQ>): (r: seq<Tid>)
    ensures |r| == |q| && forall i :: 0 <= i < |q| ==> r[i] == q[i].thread
  {
    seq(|q|, i requires 0 <= i < |q| => q[i].thread)
  }

  /** The io queue holds one element for each thread that is in a poll and has not
      been reported to. */
  ghost predicate IoQOk(s: Vp) {
    forall t: Tid :: multiset(Pollers(s.ioQ))[t] == if OnIo(Get(s, t)) then 1 else 0
  }

  ghost predicate CondOk(s: Vp, cv: Cv) {
    forall t: Tid :: multiset(WaitQ(s, cv))[t] == if OnCond(Get(s, t), cv) then 1 else 0
  }

  /** The queue of a mutex, and who owns it: a thread that still waits is not the
      owner and there is one; a thread that was woken owns it or was interrupted. */
  ghost predicate MutexOk(s: Vp, m: Mx) {
    && (forall t: Tid :: multiset(MutexOf(s, m).waitQ)[t] == if OnMutex(Get(s, t), m) then 1 else 0)
    && (forall t: Tid :: OnMutex(Get(s, t), m) && Get(s, t).state.LOCK_WAIT? ==>
          MutexOf(s, m).owner.Some? && MutexOf(s, m).owner != Some(t))
    && (forall t: Tid :: OnMutex(Get(s, t), m) && !Get(s, t).state.LOCK_WAIT? ==>
          MutexOf(s, m).owner == Some(t) || Get(s, t).interrupt)
  }

  ghost predicate ObjectsOk(s: Vp) {
    && (forall cv: Cv :: CondOk(s, cv))
    && (forall m: Mx :: MutexOk(s, m))
  }

  /** Termination variables and joins: a variable announces one thread and has at
      most one waiter; a thread in a join waits for one that nobody has joined,
      and if it was signalled, that thread is a zombie. */
  ghost predicate TermOk(s: Vp) {
    && (forall t: Tid :: Get(s, t).term.Some? ==>
          Get(s, t).term.value in s.conds && s.conds[Get(s, t).term.value].termOf == Some(t))
    && (forall cv: Cv :: cv in s.conds && s.conds[cv].termOf.Some? ==>
          Get(s, s.conds[cv].termOf.value).term == Some(cv) && |s.conds[cv].waitQ| <= 1)
    && (forall t: Tid :: Get(s, t).pc.InCondWait? ==> UserCond(s, Get(s, t).pc.cv))
    && (forall t: Tid :: Get(s, t).pc.InJoin? ==> JoinOk(s, Get(s, t)))
  }

  ghost predicate JoinOk(s: Vp, x: Thread)
    requires x.pc.InJoin?
  {
    && Get(s, x.pc.target).term == Some(x.pc.cv)
    && Unjoined(Get(s, x.pc.target))
    && (x.pc.woke.BySignal? ==> Get(s, x.pc.target).state.ZOMBIE?)
  }

  ghost function Live(s: Vp): set<Tid> {
    set t: Tid | t in s.thr && Alive(s.thr[t])
  }

  /** `_st_active_count` counts the threads that have not exited. */
  ghost predicate ActiveOk(s: Vp) {
    s.active == |Live(s)|
  }

  /** Everything agrees, and `running` is the only thread that runs. */
  ghost predicate Agrees(s: Vp, running: Option<Tid>) {
    && ThreadsOk(s, running)
    && RunQOk(s) && ZombieQOk(s) && SleepQOk(s) && IoQOk(s)
    && ObjectsOk(s) && TermOk(s) && ActiveOk(s)
  }

  /** Between two events: the current thread runs, and it is the idle thread only
      when nobody else can. */
  ghost predicate Inv(s: Vp) {
    && Agrees(s, Some(s.cur))
    && (s.cur == s.idle ==> s.runQ == [])
  }

  lemma InitObjects(idle: Tid, primordial: Tid, now: int)
    requires idle != primordial
    ensures ObjectsOk(Init(idle, primordial, now)) && TermOk(Init(idle, primordial, now))
  {
    var s := Init(idle, primordial, now);
    assert forall t: Tid :: Get(s, t).pc.InIdle? || Get(s, t).pc.User? || Get(s, t).pc.Dead?;
  }

  lemma InitThreads(idle: Tid, primordial: Tid, now: int)
    requires idle != primordial
    ensures ThreadsOk(Init(idle, primordial, now), Some(primordial)) && ActiveOk(Init(idle, primordial, now))
  {
    var s := Init(idle, primordial, now);
    assert Get(s, idle).pc.InIdle? && Get(s, primordial).pc.User?;
    assert Live(s) == {primordial};
  }

  lemma InitIsOk(idle: Tid, primordial: Tid, now: int)
    requires idle != primordial
    ensures Inv(Init(idle, primordial, now))
  {
    InitObjects(idle, primordial, now);
    InitThreads(idle, primordial, now);
    assert Me(Init(idle, primordial, now)).pc.User?;
  }

  // ----------------------------------------------------------- queue arithmetic

  lemma {:induction false} WithoutCounts(q: seq<Tid>, t: Tid)
    ensures forall u: Tid :: multiset(Without(q, t))[u] == multiset(q)[u] - if u == t && multiset(q)[t] > 0 then 1 else 0
  {
    if q != [] {
      assert q == [q[0]] + q[1..];
      if q[0] != t {
        WithoutCounts(q[1..], t);
      }
    }
  }

  lemma HeadCounts(q: seq<Tid>)
    requires q != []
    ensures forall u: Tid :: multiset(q[1..])[u] == multiset(q)[u] - if u == q[0] then 1 else 0
  {
    assert q == [q[0]] + q[1..];
  }

  lemma InsertCounts(h: seq<Entry<Tid>>, e: Entry<Tid>)
    ensures forall u: Tid :: multiset(Whos(Insert(h, e)))[u] == multiset(Whos(h))[u] + if u == e.who then 1 else 0
  {
    InsertMembers(h, e);
    WhosOfSameMembers(Insert(h, e), h + [e]);
    WhosOfConcat(h, [e]);
    assert Whos([e]) == [e.who];
    assert multiset(Whos(Insert(h, e))) == multiset(Whos(h)) + multiset{e.who};
  }

  lemma DeleteCounts(h: seq<Entry<Tid>>, k: nat)
    requires 1 <= k <= |h|
    ensures forall u: Tid :: multiset(Whos(Delete(h, k)))[u] == multiset(Whos(h))[u] - if u == At(h, k).who then 1 else 0
  {
    DeleteMembers(h, k);
    WhosOfSameMembers(Delete(h, k) + [At(h, k)], h);
    WhosOfConcat(Delete(h, k), [At(h, k)]);
    assert Whos([At(h, k)]) == [At(h, k).who];
    assert multiset(Whos(h)) == multiset(Whos(Delete(h, k))) + multiset{At(h, k).who};
  }

  lemma {:induction false} PosFinds(h: seq<Entry<Tid>>, t: Tid)
    ensures Pos(h, t) > 0 <==> multiset(Whos(h))[t] > 0
  {
    if Pos(h, t) > 0 {
      assert Whos(h)[Pos(h, t) - 1] == t;
    }
    if multiset(Whos(h))[t] > 0 {
      var j := IndexOf(Whos(h), t);
    }
  }

  lemma {:induction false} WithoutThreadCounts(q: seq<PollQ>, t: Tid)
    ensures forall u: Tid ::
      multiset(Pollers(WithoutThread(q, t)))[u] == multiset(Pollers(q))[u] - if u == t && multiset(Pollers(q))[t] > 0 then 1 else 0
  {
    PollersWithout(q, t);
    WithoutCounts(Pollers(q), t);
  }

  lemma {:induction false} PollersWithout(q: seq<PollQ>, t: Tid)
    ensures Pollers(WithoutThread(q, t)) == Without(Pollers(q), t)
  {
    if q != [] {
      assert Pollers(q)[1..] == Pollers(q[1..]);
      if q[0].thread != t {
        PollersWithout(q[1..], t);
        assert Pollers([q[0]] + WithoutThread(q[1..], t)) == [q[0].thread] + Pollers(WithoutThread(q[1..], t));
      }
    }
  }

  lemma PollersRemoveAt(q: seq<PollQ>, i: nat)
    requires i < |q|
    ensures forall u: Tid :: multiset(Pollers(RemoveAt(q, i)))[u] == multiset(Pollers(q))[u] - if u == q[i].thread then 1 else 0
  {
    RemoveOne(Pollers(q), i);
    assert Pollers(RemoveAt(q, i)) == Pollers(q)[..i] + Pollers(q)[i + 1..];
  }

  lemma PollersAppended(q: seq<PollQ>, pq: PollQ)
    ensures Pollers(q + [pq]) == Pollers(q) + [pq.thread]
  {
  }

  /** The same threads are alive. */
  lemma LiveKept(s: Vp, s': Vp)
    requires ActiveOk(s) && s'.active == s.active
    requires forall t: Tid :: Alive(Get(s, t)) <==> Alive(Get(s', t))
    ensures ActiveOk(s')
  {
    forall t: Tid ensures t in Live(s) <==> t in Live(s') {
      assert t in Live(s) <==> Alive(Get(s, t));
      assert t in Live(s') <==> Alive(Get(s', t));
    }
    assert Live(s) == Live(s');
  }
}
