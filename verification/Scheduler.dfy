/** The scheduler and the synchronisation calls of state-threads/sched.c and
    state-threads/sync.c as functions on the state of the virtual processor.  A
    call that blocks is split at the context switch: the function of the call
    ends by choosing the next thread, and `Resume` finishes the call when the
    thread is switched in again.  Module Processor shows that the imperative
    code does exactly this to its fields. */
module Scheduler {
  import opened HeapLayout
  import opened PollSets
  import opened SeqFacts
  import opened Timeouts

  type Tid = int
  type Cv = int
  type Mx = int

  datatype State = RUNNING | RUNNABLE | IO_WAIT | LOCK_WAIT | COND_WAIT | SLEEPING | ZOMBIE | SUSPENDED

  /** What took a thread out of COND_WAIT.  No code looks at this note; it is
      there to say what the return value of a wait means. */
  datatype Woke = Waiting | BySignal | ByTimeout(due: int, now: int) | ByInterrupt

  /** Where a thread is inside the library; `User` is outside of it.  For a poll,
      `fired` holds the reported descriptors once the element has left the io queue. */
  datatype Point =
    | User
    | InPoll(fired: Option<seq<PollFd>>)
    | InSleep
    | InCondWait(cv: Cv, woke: Woke)
    | InJoin(target: Tid, cv: Cv, woke: Woke)
    | InLock(m: Mx)
    | InExit
    | InIdle
    | Dead

  datatype Thread = Thread(state: State, onSleepQ: bool, interrupt: bool, timedOut: bool, term: Option<Cv>, pc: Point)

  /** A thread that is gone, or never was, keeps the state RUNNING. */
  const NOBODY := Thread(RUNNING, false, false, false, None, Dead)

  /** `termOf` says whose termination the variable announces, if anybody's. */
  datatype Cond = Cond(waitQ: seq<Tid>, termOf: Option<Tid>)

  datatype Mutex = Mutex(owner: Option<Tid>, waitQ: seq<Tid>)

  /** `_st_vp_t` with the current thread, the thread records and the objects. */
  datatype Vp = Vp(
    idle: Tid, cur: Tid, active: int, lastClock: int,
    thr: map<Tid, Thread>,
    runQ: seq<Tid>, ioQ: seq<PollQ>, zombieQ: seq<Tid>, sleepQ: seq<Entry<Tid>>,
    conds: map<Cv, Cond>, mutexes: map<Mx, Mutex>)

  datatype Errno = EINTR | ETIME | EBUSY | EINVAL | EDEADLK | EPERM | REFUSED

  /** How a call leaves the library: with a value, with an error, or not yet. */
  datatype Outcome = Returned(rv: int) | Failed(errno: Errno) | Switched

  // -------------------------------------------------------------- small changes

  function Get(s: Vp, t: Tid): Thread {
    if t in s.thr then s.thr[t] else NOBODY
  }

  function Me(s: Vp): Thread {
    Get(s, s.cur)
  }

  function With(s: Vp, t: Tid, x: Thread): Vp {
    s.(thr := s.thr[t := x])
  }

  function WaitQ(s: Vp, cv: Cv): seq<Tid> {
    if cv in s.conds then s.conds[cv].waitQ else []
  }

  function WithWaitQ(s: Vp, cv: Cv, q: seq<Tid>): Vp {
    if cv in s.conds then s.(conds := s.conds[cv := s.conds[cv].(waitQ := q)]) else s
  }

  function MutexOf(s: Vp, m: Mx): Mutex {
    if m in s.mutexes then s.mutexes[m] else Mutex(None, [])
  }

  function WithMutex(s: Vp, m: Mx, x: Mutex): Vp {
    s.(mutexes := s.mutexes[m := x])
  }

  /** The heap index of a thread, 0 if it is not in the heap. */
  function Pos(h: seq<Entry<Tid>>, t: Tid): (k: nat)
    ensures k <= |h| && (k > 0 ==> At(h, k).who == t)
    ensures k == 0 ==> forall i :: 0 <= i < |h| ==> h[i].who != t
  {
    if h == [] then 0
    else if h[|h| - 1].who == t then |h|
    else Pos(h[..|h| - 1], t)
  }

  /** The heap without the entry of a thread, if it is there. */
  function HeapWithout(h: seq<Entry<Tid>>, t: Tid): seq<Entry<Tid>> {
    if Pos(h, t) > 0 then Delete(h, Pos(h, t)) else h
  }

  // ------------------------------------------------------- sleep and run queues

  /** `_st_add_sleep_q`; no timeout, no change. */
  function AddSleepQ(s: Vp, t: Tid, timeout: Option<nat>): Vp {
    match timeout
    case None => s
    case Some(us) =>
      With(s.(sleepQ := Insert(s.sleepQ, Entry(t, s.lastClock + us))), t, Get(s, t).(onSleepQ := true))
  }

  /** `_st_del_sleep_q`. */
  function DelSleepQ(s: Vp, t: Tid): Vp {
    With(s.(sleepQ := HeapWithout(s.sleepQ, t)), t, Get(s, t).(onSleepQ := false))
  }

  /** "Make thread runnable": state RUNNABLE and the tail of the run queue. */
  function MakeRunnable(s: Vp, t: Tid): Vp {
    With(s.(runQ := s.runQ + [t]), t, Get(s, t).(state := RUNNABLE))
  }

  /** A thread leaves the heap, if it is there, and becomes runnable. */
  function Wake(s: Vp, t: Tid): Vp {
    MakeRunnable(if Get(s, t).onSleepQ then DelSleepQ(s, t) else s, t)
  }

  /** The note on a thread that stops waiting on a condition variable. */
  function Noted(x: Thread, w: Woke): Thread {
    if !x.state.COND_WAIT? then x
    else match x.pc
      case InCondWait(cv, _) => x.(pc := InCondWait(cv, w))
      case InJoin(target, cv, _) => x.(pc := InJoin(target, cv, w))
      case _ => x
  }

  /** `_st_vp_schedule`, which is what `_ST_SWITCH_CONTEXT` ends in. */
  function Schedule(s: Vp): Vp {
    var t := if s.runQ != [] then s.runQ[0] else s.idle;
    With(s.(runQ := if s.runQ != [] then s.runQ[1..] else [], cur := t), t, Get(s, t).(state := RUNNING))
  }

  /** The current thread gives way in the given state, at the given point. */
  function Block(s: Vp, state: State, pc: Point): Vp {
    With(s, s.cur, Me(s).(state := state, pc := pc))
  }

  /** The check for a pending interrupt at the entry and at the end of a call. */
  function ClearInterrupt(s: Vp): Vp {
    With(s, s.cur, Me(s).(interrupt := false))
  }

  // ----------------------------------------------------------- calls: sched.c

  /** `st_poll` up to the switch; `accepted` is the verdict of `pollset_add`. */
  function Poll(s: Vp, pds: seq<PollFd>, accepted: bool, timeout: Option<nat>): (Vp, Outcome) {
    if Me(s).interrupt then (ClearInterrupt(s), Failed(EINTR))
    else if !accepted then (s, Failed(REFUSED))
    else
      var s1 := AddSleepQ(s.(ioQ := s.ioQ + [PollQ(s.cur, Strip(pds))]), s.cur, timeout);
      (Schedule(Block(s1, IO_WAIT, InPoll(None))), Switched)
  }

  function CountReady(pds: seq<PollFd>): nat {
    if pds == [] then 0 else (if pds[0].revents != {} then 1 else 0) + CountReady(pds[1..])
  }

  /** `st_poll` after the switch. */
  function PollResumed(s: Vp, fired: Option<seq<PollFd>>): (Vp, Outcome) {
    var s1 := With(s, s.cur, Me(s).(pc := User));
    var s2 := if fired.None? then s1.(ioQ := WithoutThread(s1.ioQ, s.cur)) else s1;
    if Me(s2).interrupt then (ClearInterrupt(s2), Failed(EINTR))
    else (s2, Returned(if fired.Some? then CountReady(fired.value) else 0))
  }

  /** `st_thread_create`; `term` names the termination variable of a joinable thread. */
  function ThreadCreate(s: Vp, t: Tid, term: Option<Cv>): (Vp, Outcome) {
    var s1 := if term.Some? then s.(conds := s.conds[term.value := Cond([], Some(t))]) else s;
    var s2 := With(s1, t, Thread(RUNNABLE, false, false, false, term, User));
    (s2.(active := s.active + 1, runQ := s.runQ + [t]), Returned(t))
  }

  /** `st_thread_exit` up to the first switch, or to the end if nobody can join. */
  function ThreadExit(s: Vp): (Vp, Outcome) {
    var s1 := s.(active := s.active - 1);
    match Me(s).term
    case Some(cv) =>
      var s2 := Block(s1.(zombieQ := s.zombieQ + [s.cur]), ZOMBIE, InExit);
      (Schedule(SignalAlong(s2, WaitQ(s2, cv), false)), Switched)
    case None =>
      (Schedule(With(s1, s.cur, Me(s).(pc := Dead))), Switched)
  }

  /** `st_thread_exit` after the thread has been joined. */
  function ExitResumed(s: Vp): (Vp, Outcome) {
    var cv := Me(s).term;
    var s1 := if cv.Some? && WaitQ(s, cv.value) == [] then s.(conds := s.conds - {cv.value}) else s;
    (Schedule(With(s1, s.cur, Me(s).(term := None, pc := Dead))), Switched)
  }

  /** The end of `st_thread_join`: the zombie is made runnable. */
  function Joined(s: Vp, t: Tid): Vp {
    MakeRunnable(s.(zombieQ := Without(s.zombieQ, t)), t)
  }

  /** The loop of `st_thread_join`, from its condition on. */
  function JoinLoop(s: Vp, t: Tid, cv: Cv): (Vp, Outcome) {
    if Get(s, t).state.ZOMBIE? then (Joined(s, t), Returned(0))
    else if Me(s).interrupt then (ClearInterrupt(s), Failed(EINTR))
    else
      var s1 := WithWaitQ(s, cv, WaitQ(s, cv) + [s.cur]);
      (Schedule(Block(s1, COND_WAIT, InJoin(t, cv, Waiting))), Switched)
  }

  /** `st_thread_join`. */
  function ThreadJoin(s: Vp, t: Tid): (Vp, Outcome) {
    match Get(s, t).term
    case None => (s, Failed(EINVAL))
    case Some(cv) =>
      if t == s.cur then (s, Failed(EDEADLK))
      else if WaitQ(s, cv) != [] then (s, Failed(EINVAL))
      else JoinLoop(s, t, cv)
  }

  /** `st_thread_interrupt`. */
  function ThreadInterrupt(s: Vp, t: Tid): (Vp, Outcome) {
    var x := Get(s, t);
    if x.state.ZOMBIE? then (s, Returned(0))
    else if x.state.RUNNING? || x.state.RUNNABLE? then (With(s, t, x.(interrupt := true)), Returned(0))
    else (Wake(With(s, t, Noted(x, ByInterrupt).(interrupt := true)), t), Returned(0))
  }

  // ------------------------------------------------------------ calls: sync.c

  /** `st_usleep` up to the switch. */
  function USleep(s: Vp, timeout: Option<nat>): (Vp, Outcome) {
    if Me(s).interrupt then (ClearInterrupt(s), Failed(EINTR))
    else
      var s1 := AddSleepQ(s, s.cur, timeout);
      (Schedule(Block(s1, if timeout.Some? then SLEEPING else SUSPENDED, InSleep)), Switched)
  }

  /** `st_usleep` after the switch. */
  function SleepResumed(s: Vp): (Vp, Outcome) {
    var s1 := With(s, s.cur, Me(s).(pc := User));
    if Me(s1).interrupt then (ClearInterrupt(s1), Failed(EINTR)) else (s1, Returned(0))
  }

  /** `st_cond_timedwait` up to the switch. */
  function CondTimedWait(s: Vp, cv: Cv, timeout: Option<nat>): (Vp, Outcome) {
    if Me(s).interrupt then (ClearInterrupt(s), Failed(EINTR))
    else
      var s1 := AddSleepQ(WithWaitQ(s, cv, WaitQ(s, cv) + [s.cur]), s.cur, timeout);
      (Schedule(Block(s1, COND_WAIT, InCondWait(cv, Waiting))), Switched)
  }

  /** `st_cond_timedwait` after the switch. */
  function CondResumed(s: Vp, cv: Cv): (Vp, Outcome) {
    var x := Me(s);
    var s1 := WithWaitQ(s, cv, Without(WaitQ(s, cv), s.cur));
    (With(s1, s.cur, x.(pc := User, timedOut := false, interrupt := false)),
      if x.interrupt then Failed(EINTR) else if x.timedOut then Failed(ETIME) else Returned(0))
  }

  /** `st_thread_join` after the switch: the wait is over, the loop goes on. */
  function JoinResumed(s: Vp, t: Tid, cv: Cv): (Vp, Outcome) {
    var (s1, outcome) := CondResumed(s, cv);
    if outcome.Failed? then (s1, outcome) else JoinLoop(s1, t, cv)
  }

  /** The loop of `_st_cond_signal` along the queue `q`. */
  function SignalAlong(s: Vp, q: seq<Tid>, broadcast: bool): Vp
    decreases |q|
  {
    if q == [] then s
    else if Get(s, q[0]).state.COND_WAIT? then
      var s1 := Wake(With(s, q[0], Noted(Get(s, q[0]), BySignal)), q[0]);
      if broadcast then SignalAlong(s1, q[1..], broadcast) else s1
    else SignalAlong(s, q[1..], broadcast)
  }

  function CondSignal(s: Vp, cv: Cv, broadcast: bool): (Vp, Outcome) {
    (SignalAlong(s, WaitQ(s, cv), broadcast), Returned(0))
  }

  function CondNew(s: Vp, cv: Cv): (Vp, Outcome) {
    (s.(conds := s.conds[cv := Cond([], None)]), Returned(cv))
  }

  function CondDestroy(s: Vp, cv: Cv): (Vp, Outcome) {
    if WaitQ(s, cv) != [] then (s, Failed(EBUSY)) else (s.(conds := s.conds - {cv}), Returned(0))
  }

  function MutexNew(s: Vp, m: Mx): (Vp, Outcome) {
    (WithMutex(s, m, Mutex(None, [])), Returned(m))
  }

  function MutexDestroy(s: Vp, m: Mx): (Vp, Outcome) {
    if MutexOf(s, m).owner.Some? || MutexOf(s, m).waitQ != [] then (s, Failed(EBUSY))
    else (s.(mutexes := s.mutexes - {m}), Returned(0))
  }

  /** `st_mutex_lock` up to the switch. */
  function MutexLock(s: Vp, m: Mx): (Vp, Outcome) {
    var x := MutexOf(s, m);
    if Me(s).interrupt then (ClearInterrupt(s), Failed(EINTR))
    else if x.owner.None? then (WithMutex(s, m, x.(owner := Some(s.cur))), Returned(0))
    else if x.owner == Some(s.cur) then (s, Failed(EDEADLK))
    else (Schedule(Block(WithMutex(s, m, x.(waitQ := x.waitQ + [s.cur])), LOCK_WAIT, InLock(m))), Switched)
  }

  /** `st_mutex_lock` after the switch. */
  function LockResumed(s: Vp, m: Mx): (Vp, Outcome) {
    var x := MutexOf(s, m);
    var s1 := With(WithMutex(s, m, x.(waitQ := Without(x.waitQ, s.cur))), s.cur, Me(s).(pc := User));
    if Me(s).interrupt && x.owner != Some(s.cur) then (ClearInterrupt(s1), Failed(EINTR)) else (s1, Returned(0))
  }

  /** The loop of `st_mutex_unlock` along the queue `q`. */
  function HandOver(s: Vp, m: Mx, q: seq<Tid>): Vp {
    if q == [] then WithMutex(s, m, MutexOf(s, m).(owner := None))
    else if Get(s, q[0]).state.LOCK_WAIT?
      then MakeRunnable(WithMutex(s, m, MutexOf(s, m).(owner := Some(q[0]))), q[0])
    else HandOver(s, m, q[1..])
  }

  function MutexUnlock(s: Vp, m: Mx): (Vp, Outcome) {
    if MutexOf(s, m).owner != Some(s.cur) then (s, Failed(EPERM))
    else (HandOver(s, m, MutexOf(s, m).waitQ), Returned(0))
  }

  function MutexTryLock(s: Vp, m: Mx): (Vp, Outcome) {
    if MutexOf(s, m).owner.Some? then (s, Failed(EBUSY))
    else (WithMutex(s, m, MutexOf(s, m).(owner := Some(s.cur))), Returned(0))
  }

  // -------------------------------------------------------------- the idle loop

  /** An element with something to report leaves the io queue and its thread
      becomes runnable, whatever state that thread is in. */
  function WakeIo(s: Vp, i: nat, pds: seq<PollFd>): Vp
    requires i < |s.ioQ|
  {
    var t := s.ioQ[i].thread;
    Wake(With(s.(ioQ := RemoveAt(s.ioQ, i)), t, Get(s, t).(pc := InPoll(Some(pds)))), t)
  }

  /** An element with nothing to report stays on the io queue. */
  function KeepIo(s: Vp, i: nat, pds: seq<PollFd>): Vp
    requires i < |s.ioQ|
  {
    s.(ioQ := s.ioQ[i := s.ioQ[i].(pds := pds)])
  }

  /** The loop of a dispatch over the io queue, from element `i` on. */
  function ServeIo(s: Vp, i: nat, answer: Answer): Vp
    decreases |s.ioQ| - i
  {
    if i >= |s.ioQ| then s
    else
      var pds := FireAll(s.ioQ[i].pds, answer);
      if Notified(pds) then ServeIo(WakeIo(s, i, pds), i, answer) else ServeIo(KeepIo(s, i, pds), i + 1, answer)
  }

  /** The body of the loop of `_st_vp_check_clock`. */
  function Expire(s: Vp, now: int): Vp
    requires s.sleepQ != []
  {
    var root := At(s.sleepQ, 1);
    var x := Get(s, root.who);
    var s1 := With(s.(sleepQ := Delete(s.sleepQ, 1)), root.who,
      Noted(x, ByTimeout(root.due, now)).(onSleepQ := false, timedOut := x.timedOut || x.state.COND_WAIT?));
    MakeRunnable(s1, root.who)
  }

  /** The loop of `_st_vp_check_clock`. */
  function ExpireAll(s: Vp, now: int): Vp
    decreases |s.sleepQ|
  {
    if s.sleepQ == [] || At(s.sleepQ, 1).due > now then s else ExpireAll(Expire(s, now), now)
  }

  function CheckClock(s: Vp, now: int): Vp {
    ExpireAll(s.(lastClock := now), now)
  }

  /** One turn of the loop of the idle thread. */
  function IdleTurn(s: Vp, answer: Answer, now: int): (Vp, Outcome) {
    var s1 := CheckClock(ServeIo(s, 0, answer), now);
    (Schedule(Block(s1, RUNNABLE, InIdle)), Switched)
  }

  // ------------------------------------------------------------------------ runs

  /** The rest of the call that the current thread was switched out of. */
  function Resume(s: Vp): (Vp, Outcome) {
    match Me(s).pc
    case InPoll(fired) => PollResumed(s, fired)
    case InSleep => SleepResumed(s)
    case InCondWait(cv, _) => CondResumed(s, cv)
    case InJoin(t, cv, _) => JoinResumed(s, t, cv)
    case InLock(m) => LockResumed(s, m)
    case InExit => ExitResumed(s)
    case _ => (s, Returned(0))
  }

  datatype Event =
    | EvPoll(pds: seq<PollFd>, accepted: bool, timeout: Option<nat>)
    | EvSleep(timeout: Option<nat>)
    | EvWait(cv: Cv, timeout: Option<nat>)
    | EvSignal(cv: Cv, broadcast: bool)
    | EvCondNew(cv: Cv)
    | EvCondDestroy(cv: Cv)
    | EvMutexNew(m: Mx)
    | EvMutexDestroy(m: Mx)
    | EvLock(m: Mx)
    | EvTryLock(m: Mx)
    | EvUnlock(m: Mx)
    | EvCreate(t: Tid, term: Option<Cv>)
    | EvExit
    | EvJoin(t: Tid)
    | EvInterrupt(t: Tid)
    | EvResume
    | EvIdle(answer: Answer, now: int)

  function Do(s: Vp, e: Event): (Vp, Outcome) {
    match e
    case EvPoll(pds, accepted, timeout) => Poll(s, pds, accepted, timeout)
    case EvSleep(timeout) => USleep(s, timeout)
    case EvWait(cv, timeout) => CondTimedWait(s, cv, timeout)
    case EvSignal(cv, broadcast) => CondSignal(s, cv, broadcast)
    case EvCondNew(cv) => CondNew(s, cv)
    case EvCondDestroy(cv) => CondDestroy(s, cv)
    case EvMutexNew(m) => MutexNew(s, m)
    case EvMutexDestroy(m) => MutexDestroy(s, m)
    case EvLock(m) => MutexLock(s, m)
    case EvTryLock(m) => MutexTryLock(s, m)
    case EvUnlock(m) => MutexUnlock(s, m)
    case EvCreate(t, term) => ThreadCreate(s, t, term)
    case EvExit => ThreadExit(s)
    case EvJoin(t) => ThreadJoin(s, t)
    case EvInterrupt(t) => ThreadInterrupt(s, t)
    case EvResume => Resume(s)
    case EvIdle(answer, now) => IdleTurn(s, answer, now)
  }

  function Step(s: Vp, e: Event): Vp {
    Do(s, e).0
  }

  /** The condition variable belongs to the program, not to a thread. */
  predicate UserCond(s: Vp, cv: Cv) {
    cv in s.conds && s.conds[cv].termOf.None?
  }

  /** The thread has not been joined before: a zombie that was joined is
      runnable again, and then gone. */
  predicate Unjoined(x: Thread) {
    !x.pc.Dead? && (x.pc.InExit? ==> x.state.ZOMBIE?)
  }

  /** What may happen next.  A thread in the library goes on with its call, the
      idle thread with its loop; any other thread may make any call on objects
      that exist. */
  ghost predicate Enabled(s: Vp, e: Event) {
    match e
    case EvResume => !Me(s).pc.User? && !Me(s).pc.InIdle?
    case EvIdle(answer, _) => Me(s).pc.InIdle? && s.active > 0
    case _ =>
      Me(s).pc.User? &&
      match e
      case EvWait(cv, _) => UserCond(s, cv)
      case EvSignal(cv, _) => UserCond(s, cv)
      case EvCondNew(cv) => cv !in s.conds
      case EvCondDestroy(cv) => UserCond(s, cv)
      case EvMutexNew(m) => m !in s.mutexes
      case EvMutexDestroy(m) => m in s.mutexes
      case EvLock(m) => m in s.mutexes
      case EvTryLock(m) => m in s.mutexes
      case EvUnlock(m) => m in s.mutexes
      case EvCreate(t, term) => t !in s.thr && (term.Some? ==> term.value !in s.conds)
      case EvJoin(t) => Unjoined(Get(s, t))
      case EvInterrupt(t) => !Get(s, t).pc.Dead? && t != s.idle
      case _ => true
  }

  /** After `st_init`: the idle thread and the primordial thread, which runs. */
  function Init(idle: Tid, primordial: Tid, now: int): Vp {
    Vp(idle, primordial, 1, now,
       map[idle := Thread(RUNNABLE, false, false, false, None, InIdle),
           primordial := Thread(RUNNING, false, false, false, None, User)],
       [], [], [], [], map[], map[])
  }

  /** Every event of the run is enabled when its turn comes. */
  ghost predicate CanRun(s: Vp, es: seq<Event>)
    decreases |es|
  {
    es == [] || (Enabled(s, es[0]) && CanRun(Step(s, es[0]), es[1..]))
  }

  function Run(s: Vp, es: seq<Event>): Vp
    decreases |es|
  {
    if es == [] then s else Run(Step(s, es[0]), es[1..])
  }
}
