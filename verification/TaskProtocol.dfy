/** The scheduling protocol of FrameWork/CommonUtilitiesLib-linux-windows/Task.cpp:
    any number of signalling threads race with the threads of the pool on the
    event words of the tasks.  Every atomic operation, and every operation on a
    queue or heap under its lock, is one step. */
module TaskProtocol {
  import opened EventWord
  import opened SeqFacts

  type Task = int
  type Worker = int
  type Signaller = int

  /** Where a pool thread is in `TaskThread::Entry`. */
  datatype Phase =
    | Waiting                                 // in WaitForTask
    | Running(task: Task)                     // in Run
    | Reading(task: Task, events: Word)       // in GetEvents, between its read and its subtraction
    | Finishing(task: Task)                   // Run has returned 0
    | Tagging(task: Task)                     // Run has returned > 0 and the task is in the timer heap

  datatype Timer = Timer(due: int, task: Task)

  datatype Pool = Pool(
    workers: set<Worker>,
    live: set<Task>,
    events: map<Task, Word>,                  // fEvents
    queue: map<Worker, seq<Task>>,            // fTaskQueue
    heap: map<Worker, seq<Timer>>,            // fHeap
    phase: map<Worker, Phase>,
    carried: map<Signaller, Task>)            // won the alive bit, not enqueued yet

  function EventsOf(s: Pool, t: Task): Word {
    if t in s.events then s.events[t] else NoEvents()
  }

  function QueueOf(s: Pool, w: Worker): seq<Task> {
    if w in s.queue then s.queue[w] else []
  }

  function HeapOf(s: Pool, w: Worker): seq<Timer> {
    if w in s.heap then s.heap[w] else []
  }

  function PhaseOf(s: Pool, w: Worker): Phase {
    if w in s.phase then s.phase[w] else Waiting
  }

  function WithEvents(s: Pool, t: Task, v: Word): Pool {
    s.(events := s.events[t := v])
  }

  function InPhase(s: Pool, w: Worker, p: Phase): Pool {
    s.(phase := s.phase[w := p])
  }

  function TasksOf(h: seq<Timer>): (r: seq<Task>)
    ensures |r| == |h| && forall i :: 0 <= i < |h| ==> r[i] == h[i].task
  {
    seq(|h|, i requires 0 <= i < |h| => h[i].task)
  }

  datatype Step =
    | Create(t: Task)
    | SignalOr(sig: Signaller, t: Task, bits: Word)
    | SignalEnqueue(sig: Signaller, w: Worker)
    | TakeQueued(w: Worker)
    | TakeTimer(w: Worker, i: nat, now: int)
    | GetEventsRead(w: Worker)
    | GetEventsSub(w: Worker)
    | RunReturns(w: Worker, timeout: int, now: int)
    | CompareAlive(w: Worker)
    | TagIdle(w: Worker)

  /** What may happen next.  Tasks are not signalled after they have been deleted;
      the thread that a signaller enqueues on is one of the pool. */
  predicate Enabled(s: Pool, e: Step) {
    match e
    case Create(t) => t !in s.live
    case SignalOr(sig, t, _) => t in s.live && sig !in s.carried
    case SignalEnqueue(sig, w) => sig in s.carried && w in s.workers
    case TakeQueued(w) => w in s.workers && PhaseOf(s, w) == Waiting && QueueOf(s, w) != []
    case TakeTimer(w, i, now) =>
      && w in s.workers && PhaseOf(s, w) == Waiting && i < |HeapOf(s, w)| && HeapOf(s, w)[i].due <= now
      && forall j :: 0 <= j < |HeapOf(s, w)| ==> HeapOf(s, w)[i].due <= HeapOf(s, w)[j].due
    case GetEventsRead(w) => PhaseOf(s, w).Running?
    case GetEventsSub(w) => PhaseOf(s, w).Reading?
    case RunReturns(w, _, _) => PhaseOf(s, w).Running?
    case CompareAlive(w) => PhaseOf(s, w).Finishing?
    case TagIdle(w) => PhaseOf(s, w).Tagging?
  }

  /** `Task::Signal` up to its atomic or; whoever sets the alive bit has to enqueue. */
  function SignalOrStep(s: Pool, sig: Signaller, t: Task, bits: Word): Pool {
    var s1 := WithEvents(s, t, Or(EventsOf(s, t), Or(bits, OnlyBit(ALIVE_BIT))));
    if IsAlive(EventsOf(s, t)) then s1 else s1.(carried := s.carried[sig := t])
  }

  /** The rest of `Task::Signal`. */
  function SignalEnqueueStep(s: Pool, sig: Signaller, w: Worker): Pool
    requires sig in s.carried
  {
    s.(carried := s.carried - {sig}, queue := s.queue[w := QueueOf(s, w) + [s.carried[sig]]])
  }

  function TakeQueuedStep(s: Pool, w: Worker): Pool
    requires QueueOf(s, w) != []
  {
    InPhase(s.(queue := s.queue[w := QueueOf(s, w)[1..]]), w, Running(QueueOf(s, w)[0]))
  }

  function TakeTimerStep(s: Pool, w: Worker, i: nat): Pool
    requires i < |HeapOf(s, w)|
  {
    InPhase(s.(heap := s.heap[w := RemoveAt(HeapOf(s, w), i)]), w, Running(HeapOf(s, w)[i].task))
  }

  /** The second half of `Task::GetEvents`. */
  function GetEventsSubStep(s: Pool, w: Worker, t: Task, e: Word): Pool {
    InPhase(WithEvents(s, t, Minus(EventsOf(s, t), e)), w, Running(t))
  }

  /** What `TaskThread::Entry` does with the result of `Run`, up to the next step. */
  function RunReturnsStep(s: Pool, w: Worker, t: Task, timeout: int, now: int): Pool {
    if timeout < 0 then InPhase(s.(live := s.live - {t}), w, Waiting)
    else if timeout == 0 then InPhase(s, w, Finishing(t))
    else InPhase(s.(heap := s.heap[w := HeapOf(s, w) + [Timer(now + timeout, t)]]), w, Tagging(t))
  }

  function CompareAliveStep(s: Pool, w: Worker, t: Task): Pool {
    if EventsOf(s, t) == OnlyBit(ALIVE_BIT) then InPhase(WithEvents(s, t, NoEvents()), w, Waiting) else InPhase(s, w, Running(t))
  }

  function Next(s: Pool, e: Step): Pool
    requires Enabled(s, e)
  {
    match e
    case Create(t) => WithEvents(s.(live := s.live + {t}), t, NoEvents())
    case SignalOr(sig, t, bits) => SignalOrStep(s, sig, t, bits)
    case SignalEnqueue(sig, w) => SignalEnqueueStep(s, sig, w)
    case TakeQueued(w) => TakeQueuedStep(s, w)
    case TakeTimer(w, i, _) => TakeTimerStep(s, w, i)
    case GetEventsRead(w) =>
      var t := PhaseOf(s, w).task;
      InPhase(s, w, Reading(t, EventsIn(EventsOf(s, t))))
    case GetEventsSub(w) =>
      GetEventsSubStep(s, w, PhaseOf(s, w).task, PhaseOf(s, w).events)
    case RunReturns(w, timeout, now) => RunReturnsStep(s, w, PhaseOf(s, w).task, timeout, now)
    case CompareAlive(w) => CompareAliveStep(s, w, PhaseOf(s, w).task)
    case TagIdle(w) =>
      var t := PhaseOf(s, w).task;
      InPhase(WithEvents(s, t, Or(EventsOf(s, t), OnlyBit(IDLE_BIT))), w, Waiting)
  }

  // ------------------------------------------------ the steps on the word itself

  /** `Task::Signal` up to its atomic or, on the task's word. */
  method SignalWord(word: AtomicWord, bits: Word, ghost s: Pool, ghost sig: Signaller, ghost t: Task) returns (carries: bool)
    requires Enabled(s, SignalOr(sig, t, bits)) && word.area == EventsOf(s, t)
    modifies word
    ensures var s' := Next(s, SignalOr(sig, t, bits));
      word.area == EventsOf(s', t) && (carries <==> sig in s'.carried)
  {
    var oldEvents := word.OrIn(Or(bits, OnlyBit(ALIVE_BIT)));
    carries := !IsAlive(oldEvents);
  }

  /** The subtraction in `Task::GetEvents`, whatever was signalled since its read. */
  method ReportWord(word: AtomicWord, events: Word, ghost s: Pool, ghost w: Worker)
    requires Enabled(s, GetEventsSub(w)) && events == PhaseOf(s, w).events && word.area == EventsOf(s, PhaseOf(s, w).task)
    modifies word
    ensures word.area == EventsOf(Next(s, GetEventsSub(w)), PhaseOf(s, w).task)
  {
    var left := word.Sub(events);
  }

  /** After `Run` has returned 0: the task is left alone unless it has new events. */
  method FinishWord(word: AtomicWord, ghost s: Pool, ghost w: Worker) returns (done: bool)
    requires Enabled(s, CompareAlive(w)) && word.area == EventsOf(s, PhaseOf(s, w).task)
    modifies word
    ensures var s' := Next(s, CompareAlive(w));
      word.area == EventsOf(s', PhaseOf(s, w).task) && (done <==> PhaseOf(s', w) == Waiting)
  {
    done := word.CompareAndStore(OnlyBit(ALIVE_BIT), NoEvents());
  }

  /** A task in the timer heap gets the idle event. */
  method IdleWord(word: AtomicWord, ghost s: Pool, ghost w: Worker)
    requires Enabled(s, TagIdle(w)) && word.area == EventsOf(s, PhaseOf(s, w).task)
    modifies word
    ensures word.area == EventsOf(Next(s, TagIdle(w)), PhaseOf(s, w).task)
  {
    var oldEvents := word.OrIn(OnlyBit(IDLE_BIT));
  }

  // ------------------------------------------------------------- one place each

  /** The one place where a task is. */
  datatype Place = Dormant | Carried(sig: Signaller) | Queued(w: Worker) | Timed(w: Worker) | OnThread(w: Worker)

  /** The task that a pool thread works on. */
  predicate Holds(p: Phase, t: Task) {
    (p.Running? || p.Reading? || p.Finishing?) && p.task == t
  }

  ghost predicate CarriedOk(s: Pool, t: Task, place: Place) {
    forall sig: Signaller :: (sig in s.carried && s.carried[sig] == t) <==> place == Carried(sig)
  }

  ghost predicate QueuedOk(s: Pool, t: Task, place: Place) {
    forall w: Worker :: multiset(QueueOf(s, w))[t] == if place == Queued(w) then 1 else 0
  }

  ghost predicate TimedOk(s: Pool, t: Task, place: Place) {
    forall w: Worker :: multiset(TasksOf(HeapOf(s, w)))[t] == if place == Timed(w) then 1 else 0
  }

  ghost predicate ThreadOk(s: Pool, t: Task, place: Place) {
    && (forall w: Worker :: Holds(PhaseOf(s, w), t) <==> place == OnThread(w))
    && (forall w: Worker :: PhaseOf(s, w) == Tagging(t) ==> place == Timed(w))
  }

  /** The task is at `place` and nowhere else. */
  ghost predicate IsAt(s: Pool, t: Task, place: Place) {
    CarriedOk(s, t, place) && QueuedOk(s, t, place) && TimedOk(s, t, place) && ThreadOk(s, t, place)
  }

  /** A snapshot in GetEvents is still part of the word. */
  ghost predicate SnapshotOk(p: Phase, t: Task, v: Word) {
    p.Reading? && p.task == t ==> Within(p.events, v) && !IsAlive(p.events)
  }

  /** The alive bit is set if and only if the task is somewhere; a task that is
      nowhere has no events. */
  ghost predicate WordOk(s: Pool, t: Task, place: Place) {
    && (t in s.live ==> (IsAlive(EventsOf(s, t)) <==> place != Dormant))
    && (t in s.live && place == Dormant ==> EventsOf(s, t) == NoEvents())
    && (t !in s.live ==> place == Dormant)
    && (forall w: Worker :: SnapshotOk(PhaseOf(s, w), t, EventsOf(s, t)))
  }

  ghost predicate TaskOk(s: Pool, t: Task) {
    exists place :: Fits(s, t, place)
  }

  ghost predicate Inv(s: Pool) {
    forall t: Task :: TaskOk(s, t)
  }

  /** A pool without tasks. */
  function Empty(workers: set<Worker>): Pool {
    Pool(workers, {}, map[], map[], map[], map[], map[])
  }

  lemma EmptyIsOk(workers: set<Worker>)
    ensures Inv(Empty(workers))
  {
    forall t: Task ensures TaskOk(Empty(workers), t) {
      assert Fits(Empty(workers), t, Dormant);
    }
  }

  /** Where task `t` is after the step, if it was at `place` before. */
  function Moved(s: Pool, e: Step, t: Task, place: Place): Place
    requires Enabled(s, e)
  {
    match e
    case SignalOr(sig, u, _) => if t == u && !IsAlive(EventsOf(s, t)) then Carried(sig) else place
    case SignalEnqueue(sig, w) => if t == s.carried[sig] then Queued(w) else place
    case TakeQueued(w) => if t == QueueOf(s, w)[0] then OnThread(w) else place
    case TakeTimer(w, i, _) => if t == HeapOf(s, w)[i].task then OnThread(w) else place
    case RunReturns(w, timeout, _) =>
      if t != PhaseOf(s, w).task || timeout == 0 then place else if timeout < 0 then Dormant else Timed(w)
    case CompareAlive(w) => if t == PhaseOf(s, w).task && EventsOf(s, t) == OnlyBit(ALIVE_BIT) then Dormant else place
    case _ => place
  }

  ghost predicate Fits(s: Pool, t: Task, place: Place) {
    IsAt(s, t, place) && WordOk(s, t, place)
  }

  // ---- parts of the invariant that a step does not touch

  lemma SameCarried(s: Pool, s': Pool, t: Task, place: Place, place': Place)
    requires CarriedOk(s, t, place) && s'.carried == s.carried && (place.Carried? || place'.Carried? ==> place == place')
    ensures CarriedOk(s', t, place')
  {
  }

  lemma SameQueued(s: Pool, s': Pool, t: Task, place: Place, place': Place)
    requires QueuedOk(s, t, place) && s'.queue == s.queue && (place.Queued? || place'.Queued? ==> place == place')
    ensures QueuedOk(s', t, place')
  {
    forall w: Worker ensures multiset(QueueOf(s', w))[t] == if place' == Queued(w) then 1 else 0 {
      assert QueueOf(s', w) == QueueOf(s, w);
    }
  }

  lemma SameTimed(s: Pool, s': Pool, t: Task, place: Place, place': Place)
    requires TimedOk(s, t, place) && s'.heap == s.heap && (place.Timed? || place'.Timed? ==> place == place')
    ensures TimedOk(s', t, place')
  {
    forall w: Worker ensures multiset(TasksOf(HeapOf(s', w)))[t] == if place' == Timed(w) then 1 else 0 {
      assert HeapOf(s', w) == HeapOf(s, w);
    }
  }

  lemma SameThread(s: Pool, s': Pool, t: Task, place: Place, place': Place)
    requires ThreadOk(s, t, place) && s'.phase == s.phase
    requires place.OnThread? || place'.OnThread? || place.Timed? || place'.Timed? ==> place == place'
    ensures ThreadOk(s', t, place')
  {
    forall w: Worker ensures PhaseOf(s', w) == PhaseOf(s, w) {
    }
  }

  /** The word of the task and the snapshots of it are as before. */
  lemma SameWord(s: Pool, s': Pool, t: Task, place: Place, place': Place)
    requires WordOk(s, t, place) && EventsOf(s', t) == EventsOf(s, t) && (t in s'.live <==> t in s.live)
    requires forall w: Worker :: PhaseOf(s', w) == PhaseOf(s, w) || !PhaseOf(s', w).Reading? || PhaseOf(s', w).task != t
    requires place == Dormant <==> place' == Dormant
    ensures WordOk(s', t, place')
  {
    forall w: Worker ensures SnapshotOk(PhaseOf(s', w), t, EventsOf(s', t)) {
      assert SnapshotOk(PhaseOf(s, w), t, EventsOf(s, t));
    }
  }

  // ---- what the steps do

  lemma SignalOrFits(s: Pool, sig: Signaller, u: Task, bits: Word, t: Task, place: Place)
    requires u in s.live && sig !in s.carried && Fits(s, t, place)
    ensures Fits(SignalOrStep(s, sig, u, bits), t, if t == u && !IsAlive(EventsOf(s, t)) then Carried(sig) else place)
  {
    var s', place' := SignalOrStep(s, sig, u, bits), if t == u && !IsAlive(EventsOf(s, t)) then Carried(sig) else place;
    SignalOrCarried(s, sig, u, bits, t, place, place');
    SameQueued(s, s', t, place, place');
    SameTimed(s, s', t, place, place');
    SameThread(s, s', t, place, place');
    SignalOrWord(s, sig, u, bits, t, place, place');
  }

  lemma SignalOrCarried(s: Pool, sig: Signaller, u: Task, bits: Word, t: Task, place: Place, place': Place)
    requires u in s.live && sig !in s.carried && CarriedOk(s, t, place) && WordOk(s, t, place)
    requires place' == if t == u && !IsAlive(EventsOf(s, t)) then Carried(sig) else place
    ensures CarriedOk(SignalOrStep(s, sig, u, bits), t, place')
  {
  }

  lemma SignalOrWord(s: Pool, sig: Signaller, u: Task, bits: Word, t: Task, place: Place, place': Place)
    requires WordOk(s, t, place) && u in s.live
    requires place' == if t == u && !IsAlive(EventsOf(s, t)) then Carried(sig) else place
    ensures WordOk(SignalOrStep(s, sig, u, bits), t, place')
  {
    var s' := SignalOrStep(s, sig, u, bits);
    SignalOrDoes(s, sig, u, bits, t);
    if t == u {
      OrWord(s, s', t, bits, place, place');
    } else {
      SameWord(s, s', t, place, place');
    }
  }

  lemma SignalOrDoes(s: Pool, sig: Signaller, u: Task, bits: Word, t: Task)
    ensures var s' := SignalOrStep(s, sig, u, bits);
      && EventsOf(s', t) == (if t == u then Or(EventsOf(s, t), Or(bits, OnlyBit(ALIVE_BIT))) else EventsOf(s, t))
      && s'.live == s.live && s'.phase == s.phase
  {
  }

  lemma OrWord(s: Pool, s': Pool, t: Task, bits: Word, place: Place, place': Place)
    requires WordOk(s, t, place) && t in s.live && s'.live == s.live && s'.phase == s.phase && place' != Dormant
    requires EventsOf(s', t) == Or(EventsOf(s, t), Or(bits, OnlyBit(ALIVE_BIT)))
    ensures WordOk(s', t, place')
  {
    SnapshotsGrow(s, s', t, Or(bits, OnlyBit(ALIVE_BIT)));
  }

  lemma SnapshotsGrow(s: Pool, s': Pool, t: Task, bits: Word)
    requires forall w: Worker :: SnapshotOk(PhaseOf(s, w), t, EventsOf(s, t))
    requires forall w: Worker :: PhaseOf(s', w) == PhaseOf(s, w) || !PhaseOf(s', w).Reading?
    requires EventsOf(s', t) == Or(EventsOf(s, t), bits)
    ensures forall w: Worker :: SnapshotOk(PhaseOf(s', w), t, EventsOf(s', t))
  {
    forall w: Worker ensures SnapshotOk(PhaseOf(s', w), t, EventsOf(s', t)) {
      assert SnapshotOk(PhaseOf(s, w), t, EventsOf(s, t));
      SnapshotGrows(PhaseOf(s, w), t, EventsOf(s, t), bits);
    }
  }

  lemma SnapshotGrows(p: Phase, t: Task, v: Word, bits: Word)
    requires SnapshotOk(p, t, v)
    ensures SnapshotOk(p, t, Or(v, bits))
  {
  }

  lemma SignalEnqueueFits(s: Pool, sig: Signaller, w: Worker, t: Task, place: Place)
    requires sig in s.carried && Fits(s, t, place)
    ensures Fits(SignalEnqueueStep(s, sig, w), t, if t == s.carried[sig] then Queued(w) else place)
  {
    var s', place' := SignalEnqueueStep(s, sig, w), if t == s.carried[sig] then Queued(w) else place;
    assert t == s.carried[sig] ==> place == Carried(sig);
    DeliveredCarried(s, s', sig, t, place, place');
    DeliveredQueued(s, s', w, s.carried[sig], t, place, place');
    SameTimed(s, s', t, place, place');
    SameThread(s, s', t, place, place');
    SameWord(s, s', t, place, place');
  }

  lemma DeliveredCarried(s: Pool, s': Pool, sig: Signaller, t: Task, place: Place, place': Place)
    requires CarriedOk(s, t, place) && s'.carried == s.carried - {sig}
    requires sig in s.carried && if t == s.carried[sig] then !place'.Carried? else place' == place
    ensures CarriedOk(s', t, place')
  {
  }

  lemma DeliveredQueued(s: Pool, s': Pool, w: Worker, u: Task, t: Task, place: Place, place': Place)
    requires QueuedOk(s, t, place) && s'.queue == s.queue[w := QueueOf(s, w) + [u]]
    requires if t == u then !place.Queued? && place' == Queued(w) else place' == place
    ensures QueuedOk(s', t, place')
  {
    forall v: Worker ensures multiset(QueueOf(s', v))[t] == if place' == Queued(v) then 1 else 0 {
      assert QueueOf(s', v) == if v == w then QueueOf(s, w) + [u] else QueueOf(s, v);
    }
  }

  lemma HeadGone<T>(q: seq<T>, x: T)
    requires q != []
    ensures multiset(q[1..])[x] == multiset(q)[x] - if q[0] == x then 1 else 0
  {
    assert q == [q[0]] + q[1..];
  }

  lemma OneGone(h: seq<Timer>, i: nat, t: Task)
    requires i < |h|
    ensures multiset(TasksOf(RemoveAt(h, i)))[t] == multiset(TasksOf(h))[t] - if h[i].task == t then 1 else 0
  {
    assert h == h[..i] + [h[i]] + h[i + 1..];
    assert TasksOf(h) == TasksOf(h)[..i] + [h[i].task] + TasksOf(h)[i + 1..];
    assert TasksOf(RemoveAt(h, i)) == TasksOf(h)[..i] + TasksOf(h)[i + 1..];
  }

  /** Pool thread `w` goes into another phase. */
  lemma ThreadTurns(s: Pool, s': Pool, w: Worker, p: Phase, t: Task, place: Place, place': Place)
    requires ThreadOk(s, t, place) && s'.phase == s.phase[w := p]
    requires Holds(p, t) <==> place' == OnThread(w)
    requires place' == place || (Holds(PhaseOf(s, w), t) && !place'.OnThread?) || (PhaseOf(s, w) == Waiting && place' == OnThread(w) && !place.OnThread?)
    requires p == Tagging(t) ==> place' == Timed(w)
    requires place.Timed? && place' != place ==> place == Timed(w)
    ensures ThreadOk(s', t, place')
  {
    forall v: Worker ensures PhaseOf(s', v) == if v == w then p else PhaseOf(s, v) {
    }
  }

  lemma TakeQueuedFits(s: Pool, w: Worker, t: Task, place: Place)
    requires QueueOf(s, w) != [] && PhaseOf(s, w) == Waiting && Fits(s, t, place)
    ensures Fits(TakeQueuedStep(s, w), t, if t == QueueOf(s, w)[0] then OnThread(w) else place)
  {
    var q := QueueOf(s, w);
    var s', place' := TakeQueuedStep(s, w), if t == q[0] then OnThread(w) else place;
    assert q[0] in multiset(q);
    TakenQueued(s, s', w, t, place, place');
    SameCarried(s, s', t, place, place');
    SameTimed(s, s', t, place, place');
    ThreadTurns(s, s', w, Running(q[0]), t, place, place');
    SameWord(s, s', t, place, place');
  }

  lemma TakenQueued(s: Pool, s': Pool, w: Worker, t: Task, place: Place, place': Place)
    requires QueuedOk(s, t, place) && QueueOf(s, w) != [] && s'.queue == s.queue[w := QueueOf(s, w)[1..]]
    requires if t == QueueOf(s, w)[0] then place == Queued(w) && place' == OnThread(w) else place' == place
    ensures QueuedOk(s', t, place')
  {
    HeadGone(QueueOf(s, w), t);
    forall v: Worker ensures multiset(QueueOf(s', v))[t] == if place' == Queued(v) then 1 else 0 {
      assert QueueOf(s', v) == if v == w then QueueOf(s, w)[1..] else QueueOf(s, v);
    }
  }

  lemma TakeTimerFits(s: Pool, w: Worker, i: nat, t: Task, place: Place)
    requires i < |HeapOf(s, w)| && PhaseOf(s, w) == Waiting && Fits(s, t, place)
    ensures Fits(TakeTimerStep(s, w, i), t, if t == HeapOf(s, w)[i].task then OnThread(w) else place)
  {
    var h := HeapOf(s, w);
    var s', place' := TakeTimerStep(s, w, i), if t == h[i].task then OnThread(w) else place;
    assert TasksOf(h)[i] in multiset(TasksOf(h));
    SameCarried(s, s', t, place, place');
    SameQueued(s, s', t, place, place');
    TakenTimed(s, s', w, i, t, place, place');
    ThreadTurns(s, s', w, Running(h[i].task), t, place, place');
    SameWord(s, s', t, place, place');
  }

  lemma TakenTimed(s: Pool, s': Pool, w: Worker, i: nat, t: Task, place: Place, place': Place)
    requires TimedOk(s, t, place) && i < |HeapOf(s, w)| && s'.heap == s.heap[w := RemoveAt(HeapOf(s, w), i)]
    requires if t == HeapOf(s, w)[i].task then place == Timed(w) && place' == OnThread(w) else place' == place
    ensures TimedOk(s', t, place')
  {
    OneGone(HeapOf(s, w), i, t);
    forall v: Worker ensures multiset(TasksOf(HeapOf(s', v)))[t] == if place' == Timed(v) then 1 else 0 {
      assert HeapOf(s', v) == if v == w then RemoveAt(HeapOf(s, w), i) else HeapOf(s, v);
    }
  }

  /** A pool thread goes on with its task, or with none, in another phase. */
  lemma TurnsTo(s: Pool, s': Pool, w: Worker, p: Phase, t: Task, place: Place)
    requires IsAt(s, t, place) && s' == s.(events := s'.events, phase := s.phase[w := p])
    requires Holds(PhaseOf(s, w), t) <==> Holds(p, t)
    requires !p.Tagging?
    ensures IsAt(s', t, place)
  {
    SameCarried(s, s', t, place, place);
    SameQueued(s, s', t, place, place);
    SameTimed(s, s', t, place, place);
    ThreadTurns(s, s', w, p, t, place, place);
  }

  lemma GetEventsReadFits(s: Pool, w: Worker, t: Task, place: Place)
    requires PhaseOf(s, w).Running? && Fits(s, t, place)
    ensures var u := PhaseOf(s, w).task; Fits(InPhase(s, w, Reading(u, EventsIn(EventsOf(s, u)))), t, place)
  {
    var u := PhaseOf(s, w).task;
    var s' := InPhase(s, w, Reading(u, EventsIn(EventsOf(s, u))));
    TurnsTo(s, s', w, Reading(u, EventsIn(EventsOf(s, u))), t, place);
    forall v: Worker ensures SnapshotOk(PhaseOf(s', v), t, EventsOf(s', t)) {
      assert SnapshotOk(PhaseOf(s, v), t, EventsOf(s, t));
    }
  }

  lemma GetEventsSubFits(s: Pool, w: Worker, u: Task, e: Word, t: Task, place: Place)
    requires PhaseOf(s, w) == Reading(u, e) && Fits(s, t, place)
    ensures Fits(GetEventsSubStep(s, w, u, e), t, place)
  {
    var s' := GetEventsSubStep(s, w, u, e);
    assert Holds(PhaseOf(s, w), u);
    TurnsTo(s, s', w, Running(u), t, place);
    if t == u {
      assert SnapshotOk(PhaseOf(s, w), t, EventsOf(s, t));
      SubIsExact(s, w, t, e, EventsOf(s', t));
      OnlyHolder(s, w, t, place);
      SubWord(s, s', w, t, place);
    } else {
      SameWord(s, s', t, place, place);
    }
  }

  /** The subtraction in GetEvents clears the reported events and nothing else,
      even when signals have come in since the read. */
  lemma SubIsExact(s: Pool, w: Worker, t: Task, e: Word, v': Word)
    requires PhaseOf(s, w) == Reading(t, e) && SnapshotOk(PhaseOf(s, w), t, EventsOf(s, t))
    requires v' == Minus(EventsOf(s, t), e)
    ensures (IsAlive(v') <==> IsAlive(EventsOf(s, t))) && EventsIn(v') == Cleared(EventsIn(EventsOf(s, t)), e)
  {
    SubClears(EventsOf(s, t), e);
  }

  lemma SubWord(s: Pool, s': Pool, w: Worker, t: Task, place: Place)
    requires WordOk(s, t, place) && place != Dormant && s'.live == s.live
    requires IsAlive(EventsOf(s', t)) <==> IsAlive(EventsOf(s, t))
    requires forall v: Worker :: !PhaseOf(s', v).Reading? || PhaseOf(s', v).task != t
    ensures WordOk(s', t, place)
  {
  }

  /** Only one pool thread has the task. */
  lemma OnlyHolder(s: Pool, w: Worker, t: Task, place: Place)
    requires ThreadOk(s, t, place) && Holds(PhaseOf(s, w), t)
    ensures place == OnThread(w) && forall v: Worker :: v != w ==> !Holds(PhaseOf(s, v), t)
    ensures forall v: Worker :: v != w ==> !PhaseOf(s, v).Reading? || PhaseOf(s, v).task != t
  {
    forall v: Worker | v != w ensures !PhaseOf(s, v).Reading? || PhaseOf(s, v).task != t {
      assert !Holds(PhaseOf(s, v), t);
    }
  }

  lemma RunReturnsFits(s: Pool, w: Worker, timeout: int, now: int, t: Task, place: Place)
    requires PhaseOf(s, w).Running? && Fits(s, t, place)
    ensures var u := PhaseOf(s, w).task;
      Fits(RunReturnsStep(s, w, u, timeout, now), t,
        if t != u || timeout == 0 then place else if timeout < 0 then Dormant else Timed(w))
  {
    var u := PhaseOf(s, w).task;
    assert Holds(PhaseOf(s, w), u);
    if timeout == 0 {
      var s' := InPhase(s, w, Finishing(u));
      TurnsTo(s, s', w, Finishing(u), t, place);
      SameWord(s, s', t, place, place);
    } else if timeout < 0 {
      RunDeletes(s, w, t, place);
    } else {
      RunSleeps(s, w, Timer(now + timeout, u), t, place);
    }
  }

  lemma RunDeletes(s: Pool, w: Worker, t: Task, place: Place)
    requires PhaseOf(s, w).Running? && Fits(s, t, place)
    ensures var u := PhaseOf(s, w).task;
      Fits(InPhase(s.(live := s.live - {u}), w, Waiting), t, if t == u then Dormant else place)
  {
    var u := PhaseOf(s, w).task;
    var s', place' := InPhase(s.(live := s.live - {u}), w, Waiting), if t == u then Dormant else place;
    assert Holds(PhaseOf(s, w), u);
    SameCarried(s, s', t, place, place');
    SameQueued(s, s', t, place, place');
    SameTimed(s, s', t, place, place');
    ThreadTurns(s, s', w, Waiting, t, place, place');
    if t == u {
      OnlyHolder(s, w, t, place);
    } else {
      SameWord(s, s', t, place, place');
    }
  }

  lemma RunSleeps(s: Pool, w: Worker, timer: Timer, t: Task, place: Place)
    requires PhaseOf(s, w) == Running(timer.task) && Fits(s, t, place)
    ensures Fits(InPhase(s.(heap := s.heap[w := HeapOf(s, w) + [timer]]), w, Tagging(timer.task)), t,
      if t == timer.task then Timed(w) else place)
  {
    var s' := InPhase(s.(heap := s.heap[w := HeapOf(s, w) + [timer]]), w, Tagging(timer.task));
    var place' := if t == timer.task then Timed(w) else place;
    assert Holds(PhaseOf(s, w), timer.task);
    SameCarried(s, s', t, place, place');
    SameQueued(s, s', t, place, place');
    InsertedTimed(s, s', w, timer, t, place, place');
    ThreadTurns(s, s', w, Tagging(timer.task), t, place, place');
    SameWord(s, s', t, place, place');
  }

  lemma InsertedTimed(s: Pool, s': Pool, w: Worker, timer: Timer, t: Task, place: Place, place': Place)
    requires TimedOk(s, t, place) && s'.heap == s.heap[w := HeapOf(s, w) + [timer]]
    requires if t == timer.task then !place.Timed? && place' == Timed(w) else place' == place
    ensures TimedOk(s', t, place')
  {
    assert TasksOf(HeapOf(s, w) + [timer]) == TasksOf(HeapOf(s, w)) + [timer.task];
    forall v: Worker ensures multiset(TasksOf(HeapOf(s', v)))[t] == if place' == Timed(v) then 1 else 0 {
      assert HeapOf(s', v) == if v == w then HeapOf(s, w) + [timer] else HeapOf(s, v);
    }
  }

  lemma CompareAliveFits(s: Pool, w: Worker, t: Task, place: Place)
    requires PhaseOf(s, w).Finishing? && Fits(s, t, place)
    ensures var u := PhaseOf(s, w).task;
      Fits(CompareAliveStep(s, w, u), t, if t == u && EventsOf(s, t) == OnlyBit(ALIVE_BIT) then Dormant else place)
  {
    var u, s' := PhaseOf(s, w).task, CompareAliveStep(s, w, PhaseOf(s, w).task);
    assert Holds(PhaseOf(s, w), u);
    if EventsOf(s, u) != OnlyBit(ALIVE_BIT) {
      TurnsTo(s, s', w, Running(u), t, place);
      SameWord(s, s', t, place, place);
    } else {
      FallsAsleep(s, s', w, u, t, place);
    }
  }

  lemma FallsAsleep(s: Pool, s': Pool, w: Worker, u: Task, t: Task, place: Place)
    requires PhaseOf(s, w) == Finishing(u) && Fits(s, t, place)
    requires s' == InPhase(WithEvents(s, u, NoEvents()), w, Waiting)
    ensures Fits(s', t, if t == u then Dormant else place)
  {
    var place' := if t == u then Dormant else place;
    assert Holds(PhaseOf(s, w), u);
    SameCarried(s, s', t, place, place');
    SameQueued(s, s', t, place, place');
    SameTimed(s, s', t, place, place');
    ThreadTurns(s, s', w, Waiting, t, place, place');
    if t == u {
      OnlyHolder(s, w, t, place);
      AsleepWord(s, s', t, place);
    } else {
      SameWord(s, s', t, place, place');
    }
  }

  lemma AsleepWord(s: Pool, s': Pool, t: Task, place: Place)
    requires WordOk(s, t, place) && s'.live == s.live && EventsOf(s', t) == NoEvents()
    requires forall v: Worker :: !PhaseOf(s', v).Reading? || PhaseOf(s', v).task != t
    ensures WordOk(s', t, Dormant)
  {
  }

  lemma TagIdleFits(s: Pool, w: Worker, t: Task, place: Place)
    requires PhaseOf(s, w).Tagging? && Fits(s, t, place)
    ensures var u := PhaseOf(s, w).task; Fits(InPhase(WithEvents(s, u, Or(EventsOf(s, u), OnlyBit(IDLE_BIT))), w, Waiting), t, place)
  {
    var u := PhaseOf(s, w).task;
    var s' := InPhase(WithEvents(s, u, Or(EventsOf(s, u), OnlyBit(IDLE_BIT))), w, Waiting);
    TurnsTo(s, s', w, Waiting, t, place);
    TagIdleDoes(s, w, u, t);
    if t == u {
      assert PhaseOf(s, w) == Tagging(t);
      TaggedWord(s, s', w, t, place);
    } else {
      SameWord(s, s', t, place, place);
    }
  }

  lemma TagIdleDoes(s: Pool, w: Worker, u: Task, t: Task)
    ensures var s' := InPhase(WithEvents(s, u, Or(EventsOf(s, u), OnlyBit(IDLE_BIT))), w, Waiting);
      && EventsOf(s', t) == (if t == u then Or(EventsOf(s, t), OnlyBit(IDLE_BIT)) else EventsOf(s, t))
      && s'.live == s.live
  {
  }

  lemma TaggedWord(s: Pool, s': Pool, w: Worker, t: Task, place: Place)
    requires WordOk(s, t, place) && place != Dormant && s'.live == s.live && EventsOf(s', t) == Or(EventsOf(s, t), OnlyBit(IDLE_BIT))
    requires s'.phase == s.phase[w := Waiting]
    ensures WordOk(s', t, place)
  {
    SnapshotsGrow(s, s', t, OnlyBit(IDLE_BIT));
  }

  lemma CreateFits(s: Pool, u: Task, t: Task, place: Place)
    requires u !in s.live && Fits(s, t, place)
    ensures Fits(WithEvents(s.(live := s.live + {u}), u, NoEvents()), t, place)
  {
    var s' := WithEvents(s.(live := s.live + {u}), u, NoEvents());
    SameCarried(s, s', t, place, place);
    SameQueued(s, s', t, place, place);
    SameTimed(s, s', t, place, place);
    SameThread(s, s', t, place, place);
    if t == u {
      CreateWord(s, s', t);
    } else {
      SameWord(s, s', t, place, place);
    }
  }

  lemma CreateWord(s: Pool, s': Pool, t: Task)
    requires ThreadOk(s, t, Dormant) && EventsOf(s', t) == NoEvents() && s'.phase == s.phase
    ensures WordOk(s', t, Dormant)
  {
    forall w: Worker ensures SnapshotOk(PhaseOf(s', w), t, EventsOf(s', t)) {
      assert !Holds(PhaseOf(s, w), t);
    }
  }

  lemma SignallerStepFits(s: Pool, e: Step, t: Task, place: Place)
    requires Enabled(s, e) && Fits(s, t, place) && (e.Create? || e.SignalOr? || e.SignalEnqueue?)
    ensures Fits(Next(s, e), t, Moved(s, e, t, place))
  {
    match e
    case Create(u) => CreateFits(s, u, t, place);
    case SignalOr(sig, u, bits) => SignalOrFits(s, sig, u, bits, t, place);
    case SignalEnqueue(sig, w) => SignalEnqueueFits(s, sig, w, t, place);
  }

  lemma TakingStepFits(s: Pool, e: Step, t: Task, place: Place)
    requires Enabled(s, e) && Fits(s, t, place) && (e.TakeQueued? || e.TakeTimer?)
    ensures Fits(Next(s, e), t, Moved(s, e, t, place))
  {
    match e
    case TakeQueued(w) => TakeQueuedFits(s, w, t, place);
    case TakeTimer(w, i, now) => TakeTimerFits(s, w, i, t, place);
  }

  lemma ReadingStepFits(s: Pool, e: Step, t: Task, place: Place)
    requires Enabled(s, e) && Fits(s, t, place) && (e.GetEventsRead? || e.GetEventsSub?)
    ensures Fits(Next(s, e), t, Moved(s, e, t, place))
  {
    match e
    case GetEventsRead(w) => GetEventsReadFits(s, w, t, place);
    case GetEventsSub(w) => GetEventsSubFits(s, w, PhaseOf(s, w).task, PhaseOf(s, w).events, t, place);
  }

  lemma EndingStepFits(s: Pool, e: Step, t: Task, place: Place)
    requires Enabled(s, e) && Fits(s, t, place) && (e.RunReturns? || e.CompareAlive? || e.TagIdle?)
    ensures Fits(Next(s, e), t, Moved(s, e, t, place))
  {
    match e
    case RunReturns(w, timeout, now) => RunReturnsFits(s, w, timeout, now, t, place);
    case CompareAlive(w) => CompareAliveFits(s, w, t, place);
    case TagIdle(w) => TagIdleFits(s, w, t, place);
  }

  /** A step takes a task from one place to at most one other place. */
  lemma StepFits(s: Pool, e: Step, t: Task, place: Place)
    requires Enabled(s, e) && Fits(s, t, place)
    ensures Fits(Next(s, e), t, Moved(s, e, t, place))
  {
    match e
    case Create(_) => SignallerStepFits(s, e, t, place);
    case SignalOr(_, _, _) => SignallerStepFits(s, e, t, place);
    case SignalEnqueue(_, _) => SignallerStepFits(s, e, t, place);
    case TakeQueued(_) => TakingStepFits(s, e, t, place);
    case TakeTimer(_, _, _) => TakingStepFits(s, e, t, place);
    case GetEventsRead(_) => ReadingStepFits(s, e, t, place);
    case GetEventsSub(_) => ReadingStepFits(s, e, t, place);
    case _ => EndingStepFits(s, e, t, place);
  }

  /** Every step of every interleaving keeps each task in exactly one place. */
  lemma StepKeeps(s: Pool, e: Step)
    requires Inv(s) && Enabled(s, e)
    ensures Inv(Next(s, e))
  {
    forall t: Task ensures TaskOk(Next(s, e), t) {
      assert TaskOk(s, t);
      var place :| Fits(s, t, place);
      StepFits(s, e, t, place);
    }
  }

  // ------------------------------------------------------------------------ runs

  /** Every step of the interleaving is enabled when its turn comes. */
  ghost predicate CanRun(s: Pool, es: seq<Step>)
    decreases |es|
  {
    es == [] || (Enabled(s, es[0]) && CanRun(Next(s, es[0]), es[1..]))
  }

  ghost function Run(s: Pool, es: seq<Step>): Pool
    requires CanRun(s, es)
    decreases |es|
  {
    if es == [] then s else Run(Next(s, es[0]), es[1..])
  }

  lemma {:induction false} RunKeeps(s: Pool, es: seq<Step>)
    requires Inv(s) && CanRun(s, es)
    ensures Inv(Run(s, es))
    decreases |es|
  {
    if es != [] {
      StepKeeps(s, es[0]);
      RunKeeps(Next(s, es[0]), es[1..]);
    }
  }

  /** In every interleaving, a live task is in exactly one place, with its alive bit
      set if and only if that place is not "dormant"; a dormant task has no events. */
  lemma OnePlaceEach(workers: set<Worker>, es: seq<Step>, t: Task)
    requires CanRun(Empty(workers), es) && t in Run(Empty(workers), es).live
    ensures var s := Run(Empty(workers), es);
      exists place :: IsAt(s, t, place) && (IsAlive(EventsOf(s, t)) <==> place != Dormant)
        && (place == Dormant ==> EventsOf(s, t) == NoEvents())
  {
    EmptyIsOk(workers);
    RunKeeps(Empty(workers), es);
    var s := Run(Empty(workers), es);
    assert TaskOk(s, t);
    var place :| Fits(s, t, place);
    assert IsAt(s, t, place);
  }

  /** `Run` is never re-entered: two pool threads never have the same task. */
  lemma RunIsNotReentered(s: Pool, v: Worker, w: Worker, t: Task)
    requires Inv(s) && Holds(PhaseOf(s, v), t) && Holds(PhaseOf(s, w), t)
    ensures v == w
  {
    assert TaskOk(s, t);
    var place :| Fits(s, t, place);
    assert place == OnThread(v) && place == OnThread(w);
  }

  /** A task is on no queue twice, and on one queue at most. */
  lemma NotQueuedTwice(s: Pool, v: Worker, w: Worker, t: Task)
    requires Inv(s)
    ensures multiset(QueueOf(s, v))[t] <= 1
    ensures t in QueueOf(s, v) && t in QueueOf(s, w) ==> v == w
  {
    assert TaskOk(s, t);
    var place :| Fits(s, t, place);
    assert t in QueueOf(s, v) ==> multiset(QueueOf(s, v))[t] > 0;
    assert t in QueueOf(s, w) ==> multiset(QueueOf(s, w))[t] > 0;
  }

  /** A task with events is on its way to `Run`, or in it: no wakeup is lost. */
  lemma EventsMeanWork(s: Pool, t: Task)
    requires Inv(s) && t in s.live && EventsIn(EventsOf(s, t)) != NoEvents()
    ensures IsAlive(EventsOf(s, t)) && !IsAt(s, t, Dormant)
  {
    assert TaskOk(s, t);
    var place :| Fits(s, t, place);
    assert EventsIn(NoEvents()) == NoEvents();
    OnlyOnePlace(s, t, place);
  }

  lemma OnlyOnePlace(s: Pool, t: Task, place: Place)
    requires IsAt(s, t, place) && place != Dormant
    ensures !IsAt(s, t, Dormant)
  {
    match place
    case Carried(sig) => assert sig in s.carried && s.carried[sig] == t;
    case Queued(w) => assert multiset(QueueOf(s, w))[t] == 1;
    case Timed(w) => assert multiset(TasksOf(HeapOf(s, w)))[t] == 1;
    case OnThread(w) => assert Holds(PhaseOf(s, w), t);
  }

  // --------------------------------------------------------------- no event is lost

  /** What is owed to task `t` after a step: signals and the pool's own idle event
      add to it, and a `GetEvents` that returns takes away what it reports. */
  function OwedAfter(s: Pool, e: Step, t: Task, owed: Word): Word {
    match e
    case Create(u) => if u == t then NoEvents() else owed
    case SignalOr(_, u, bits) => if u == t then Or(owed, EventsIn(bits)) else owed
    case TagIdle(w) => if PhaseOf(s, w) == Tagging(t) then Or(owed, OnlyBit(IDLE_BIT)) else owed
    case GetEventsSub(w) =>
      if PhaseOf(s, w).Reading? && PhaseOf(s, w).task == t then Cleared(owed, PhaseOf(s, w).events) else owed
    case _ => owed
  }

  ghost function Owed(s: Pool, es: seq<Step>, t: Task, owed: Word): Word
    requires CanRun(s, es)
    decreases |es|
  {
    if es == [] then owed else Owed(Next(s, es[0]), es[1..], t, OwedAfter(s, es[0], t, owed))
  }

  ghost predicate Accounted(s: Pool, t: Task, owed: Word) {
    t in s.live ==> EventsIn(EventsOf(s, t)) == owed
  }

  lemma AccountedSignal(s: Pool, sig: Signaller, u: Task, bits: Word, t: Task, owed: Word)
    requires u in s.live && Accounted(s, t, owed)
    ensures Accounted(SignalOrStep(s, sig, u, bits), t, if u == t then Or(owed, EventsIn(bits)) else owed)
  {
    if u == t {
      var v := EventsOf(s, t);
      assert EventsIn(Or(v, Or(bits, OnlyBit(ALIVE_BIT)))) == Or(EventsIn(v), EventsIn(bits));
    }
  }

  lemma AccountedTag(s: Pool, w: Worker, u: Task, t: Task, owed: Word)
    requires Accounted(s, t, owed)
    ensures Accounted(InPhase(WithEvents(s, u, Or(EventsOf(s, u), OnlyBit(IDLE_BIT))), w, Waiting), t,
      if u == t then Or(owed, OnlyBit(IDLE_BIT)) else owed)
  {
    if u == t {
      var v := EventsOf(s, t);
      assert EventsIn(Or(v, OnlyBit(IDLE_BIT))) == Or(EventsIn(v), OnlyBit(IDLE_BIT));
    }
  }

  lemma AccountedSub(s: Pool, w: Worker, u: Task, e: Word, t: Task, owed: Word)
    requires Inv(s) && PhaseOf(s, w) == Reading(u, e) && Accounted(s, t, owed)
    ensures Accounted(GetEventsSubStep(s, w, u, e), t, if u == t then Cleared(owed, e) else owed)
  {
    if u == t {
      assert TaskOk(s, t);
      var place :| Fits(s, t, place);
      assert SnapshotOk(PhaseOf(s, w), t, EventsOf(s, t));
      SubIsExact(s, w, t, e, EventsOf(GetEventsSubStep(s, w, u, e), t));
    }
  }

  lemma AccountedAsleep(s: Pool, w: Worker, u: Task, t: Task, owed: Word)
    requires Accounted(s, t, owed)
    ensures Accounted(CompareAliveStep(s, w, u), t, owed)
  {
    assert EventsIn(OnlyBit(ALIVE_BIT)) == NoEvents() == EventsIn(NoEvents());
  }

  lemma AccountedStep(s: Pool, e: Step, t: Task, owed: Word)
    requires Inv(s) && Enabled(s, e) && Accounted(s, t, owed)
    ensures Accounted(Next(s, e), t, OwedAfter(s, e, t, owed))
  {
    match e
    case Create(u) => assert EventsIn(NoEvents()) == NoEvents();
    case SignalOr(sig, u, bits) => AccountedSignal(s, sig, u, bits, t, owed);
    case GetEventsSub(w) => AccountedSub(s, w, PhaseOf(s, w).task, PhaseOf(s, w).events, t, owed);
    case CompareAlive(w) => AccountedAsleep(s, w, PhaseOf(s, w).task, t, owed);
    case TagIdle(w) => AccountedTag(s, w, PhaseOf(s, w).task, t, owed);
    case _ =>
  }

  /** No event is lost and none is invented: at every moment of every interleaving,
      the events in a task's word are those that were signalled to it and that no
      `GetEvents` has returned since. */
  lemma {:induction false} NothingIsLost(s: Pool, es: seq<Step>, t: Task, owed: Word)
    requires Inv(s) && CanRun(s, es) && Accounted(s, t, owed)
    ensures Accounted(Run(s, es), t, Owed(s, es, t, owed))
    decreases |es|
  {
    if es != [] {
      StepKeeps(s, es[0]);
      AccountedStep(s, es[0], t, owed);
      NothingIsLost(Next(s, es[0]), es[1..], t, OwedAfter(s, es[0], t, owed));
    }
  }
}
