/** What mutexes and condition variables promise, over every run. */
module SchedulerSync {
  import opened HeapLayout
  import opened PollSets
  import opened SeqFacts
  import opened Timeouts
  import opened Scheduler
  import opened SchedulerInvariant
  import opened SchedulerSteps
  import opened SchedulerRuns
  import opened SchedulerTheorems

  // ---------------------------------------------------------------------- mutexes

  /** The current thread gets the mutex: `st_mutex_lock` or `st_mutex_trylock`
      returns 0, at once or after a wait. */
  predicate Acquires(s: Vp, e: Event, m: Mx) {
    Do(s, e).1 == Returned(0) && (e == EvLock(m) || e == EvTryLock(m) || (e.EvResume? && Me(s).pc == InLock(m)))
  }

  /** The current thread gives the mutex up: `st_mutex_unlock` returns 0. */
  predicate Releases(s: Vp, e: Event, m: Mx) {
    Do(s, e).1 == Returned(0) && e == EvUnlock(m)
  }

  ghost predicate SameOwner(s: Vp, s': Vp, m: Mx) {
    MutexOf(s', m).owner == MutexOf(s, m).owner
  }

  lemma {:induction false} HandOverElsewhere(s: Vp, m: Mx, q: seq<Tid>, n: Mx)
    requires n != m
    ensures SameOwner(s, HandOver(s, m, q), n)
  {
    if q != [] && !Get(s, q[0]).state.LOCK_WAIT? {
      HandOverElsewhere(s, m, q[1..], n);
    }
  }

  lemma JoinKeepsOwners(s: Vp, t: Tid, cv: Cv, m: Mx)
    ensures SameOwner(s, JoinResumed(s, t, cv).0, m)
  {
  }

  lemma ResumeKeepsOwners(s: Vp, m: Mx)
    ensures SameOwner(s, Resume(s).0, m)
  {
    match Me(s).pc
    case InJoin(t, cv, _) => JoinKeepsOwners(s, t, cv, m);
    case InLock(n) => assert SameOwner(s, LockResumed(s, n).0, m);
    case _ =>
  }

  lemma ExitKeepsOwners(s: Vp, m: Mx)
    ensures SameOwner(s, ThreadExit(s).0, m)
  {
    if Me(s).term.Some? {
      var cv := Me(s).term.value;
      var s' := Block(s.(active := s.active - 1, zombieQ := s.zombieQ + [s.cur]), ZOMBIE, InExit);
      SignalAppends(s', WaitQ(s', cv), false);
    }
  }

  lemma IdleKeepsOwners(s: Vp, answer: Answer, now: int, m: Mx)
    ensures SameOwner(s, IdleTurn(s, answer, now).0, m)
  {
    ServeIoIsDispatch(s, 0, answer);
    ExpireAllMoves(ServeIo(s, 0, answer).(lastClock := now), now);
  }

  /** No barging: whoever owns a mutex owns it until he unlocks it himself; no
      lock, trylock, interrupt, timeout or destroy takes it away. */
  lemma OwnerStays(s: Vp, e: Event, m: Mx)
    requires Enabled(s, e) && MutexOf(s, m).owner.Some?
    ensures SameOwner(s, Step(s, e), m) || (Releases(s, e, m) && MutexOf(s, m).owner == Some(s.cur))
  {
    match e
    case EvSignal(cv, broadcast) => SignalAppends(s, WaitQ(s, cv), broadcast);
    case EvUnlock(n) =>
      if n != m {
        HandOverElsewhere(s, n, MutexOf(s, n).waitQ, m);
      }
    case EvExit => ExitKeepsOwners(s, m);
    case EvResume => ResumeKeepsOwners(s, m);
    case EvIdle(answer, now) => IdleKeepsOwners(s, answer, now, m);
    case _ =>
  }

  /** Whoever acquires the mutex owns it then, and nobody else did before. */
  lemma AcquirerOwns(s: Vp, e: Event, m: Mx)
    requires Inv(s) && Enabled(s, e) && Acquires(s, e, m)
    ensures MutexOf(Step(s, e), m).owner == Some(s.cur)
    ensures MutexOf(s, m).owner == None || (e.EvResume? && MutexOf(s, m).owner == Some(s.cur))
  {
    if e.EvResume? {
      assert MutexOk(s, m) && OnMutex(Me(s), m) && Me(s).state.RUNNING?;
    }
  }

  /** The threads that have acquired the mutex and not released it since, by what
      the calls returned; `held` are those at the start. */
  function Holders(s: Vp, es: seq<Event>, m: Mx, held: set<Tid>): set<Tid>
    decreases |es|
  {
    if es == [] then held
    else
      var now := if Acquires(s, es[0], m) then held + {s.cur} else if Releases(s, es[0], m) then held - {s.cur} else held;
      Holders(Step(s, es[0]), es[1..], m, now)
  }

  ghost predicate HeldByOwner(s: Vp, m: Mx, held: set<Tid>) {
    forall t: Tid :: t in held ==> MutexOf(s, m).owner == Some(t)
  }

  lemma HolderOwns(s: Vp, e: Event, m: Mx, held: set<Tid>)
    requires Inv(s) && Enabled(s, e) && HeldByOwner(s, m, held)
    ensures HeldByOwner(Step(s, e), m,
      if Acquires(s, e, m) then held + {s.cur} else if Releases(s, e, m) then held - {s.cur} else held)
  {
    if Acquires(s, e, m) {
      AcquirerOwns(s, e, m);
    }
    if MutexOf(s, m).owner.Some? {
      OwnerStays(s, e, m);
    }
  }

  /** Mutual exclusion, told by return values alone: in every run there is never
      more than one thread for which a lock or trylock returned 0 and no unlock
      has since, and it is the owner. */
  lemma {:induction false} MutualExclusion(s: Vp, es: seq<Event>, m: Mx, held: set<Tid>)
    requires Inv(s) && CanRun(s, es) && HeldByOwner(s, m, held)
    ensures HeldByOwner(Run(s, es), m, Holders(s, es, m, held))
    ensures forall t: Tid, u: Tid :: t in Holders(s, es, m, held) && u in Holders(s, es, m, held) ==> t == u
    decreases |es|
  {
    if es != [] {
      StepKeeps(s, es[0]);
      HolderOwns(s, es[0], m, held);
      var now := if Acquires(s, es[0], m) then held + {s.cur} else if Releases(s, es[0], m) then held - {s.cur} else held;
      MutualExclusion(Step(s, es[0]), es[1..], m, now);
    }
  }

  /** The earliest waiter on `q` that is still in LOCK_WAIT. */
  ghost predicate FirstWaiter(s: Vp, q: seq<Tid>, i: nat) {
    i < |q| && Get(s, q[i]).state.LOCK_WAIT? && forall j :: 0 <= j < i ==> !Get(s, q[j]).state.LOCK_WAIT?
  }

  ghost predicate HandedTo(s: Vp, s': Vp, m: Mx, t: Tid) {
    MutexOf(s', m).owner == Some(t) && s'.runQ == s.runQ + [t] && Get(s', t).state.RUNNABLE?
  }

  /** An unlock hands the mutex directly to the earliest waiter that is still in
      LOCK_WAIT, and frees it only if there is none. */
  lemma {:induction false} HandOverToFirst(s: Vp, m: Mx, q: seq<Tid>)
    ensures var s' := HandOver(s, m, q);
      if exists i: nat :: FirstWaiter(s, q, i)
      then (exists i: nat :: FirstWaiter(s, q, i) && HandedTo(s, s', m, q[i]))
      else MutexOf(s', m).owner == None && s'.runQ == s.runQ
    ensures MutexOf(HandOver(s, m, q), m).waitQ == MutexOf(s, m).waitQ
  {
    if q != [] {
      if Get(s, q[0]).state.LOCK_WAIT? {
        assert FirstWaiter(s, q, 0);
      } else {
        HandOverToFirst(s, m, q[1..]);
        forall i: nat ensures FirstWaiter(s, q[1..], i) <==> FirstWaiter(s, q, i + 1) {
          FirstOfTail(s, q, i);
        }
        assert forall i: nat :: FirstWaiter(s, q, i) ==> i > 0 && FirstWaiter(s, q[1..], i - 1);
      }
    }
  }

  lemma FirstOfTail(s: Vp, q: seq<Tid>, i: nat)
    requires q != [] && !Get(s, q[0]).state.LOCK_WAIT?
    ensures FirstWaiter(s, q[1..], i) <==> FirstWaiter(s, q, i + 1)
  {
    assert forall j :: 0 <= j < |q| - 1 ==> q[1..][j] == q[j + 1];
    if FirstWaiter(s, q[1..], i) {
      forall j | 0 <= j < i + 1 ensures !Get(s, q[j]).state.LOCK_WAIT? {
        assert j > 0 ==> q[j] == q[1..][j - 1];
      }
    }
    if FirstWaiter(s, q, i + 1) {
      forall j | 0 <= j < i ensures !Get(s, q[1..][j]).state.LOCK_WAIT? {
        assert q[1..][j] == q[j + 1];
      }
    }
  }

  /** A waiter that goes on gets 0 if and only if the mutex was handed to it; else
      it was interrupted and does not own the mutex. */
  lemma LockResult(s: Vp)
    requires Inv(s) && Me(s).pc.InLock?
    ensures var m := Me(s).pc.m;
      if MutexOf(s, m).owner == Some(s.cur) then Do(s, EvResume).1 == Returned(0)
      else Me(s).interrupt && Do(s, EvResume).1 == Failed(EINTR) && MutexOf(Step(s, EvResume), m).owner != Some(s.cur)
  {
    assert MutexOk(s, Me(s).pc.m) && OnMutex(Me(s), Me(s).pc.m) && Me(s).state.RUNNING?;
  }
}
