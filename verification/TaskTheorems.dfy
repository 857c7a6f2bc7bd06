/** What the steps of the task protocol do to words, queues and timers, and what follows
    over every interleaving: queues are served in order, and no task runs before the delay
    that it asked for is over. */
module TaskTheorems {
  import opened EventWord
  import opened SeqFacts
  import opened TaskProtocol

  // ------------------------------------------------------------------ one step

  /** Nothing but the word of `t`, whose bits are `v`. */
  ghost predicate OnlyWord(s: Pool, s': Pool, t: Task, v: Word) {
    EventsOf(s', t) == v && forall u: Task :: u != t ==> EventsOf(s', u) == EventsOf(s, u)
  }

  ghost predicate OnlyPhase(s: Pool, s': Pool, w: Worker, p: Phase) {
    forall v: Worker :: PhaseOf(s', v) == if v == w then p else PhaseOf(s, v)
  }

  /** `Task::Signal`: the bits and the alive bit are set; who finds the alive bit clear
      carries the task, and delivers it to the tail of one queue. */
  lemma SignalSteps(s: Pool, sig: Signaller, t: Task, bits: Word, w: Worker)
    ensures Enabled(s, SignalOr(sig, t, bits)) ==>
      var s' := Next(s, SignalOr(sig, t, bits)); var v := EventsOf(s', t);
      && (forall i :: 0 <= i < WIDTH ==> (v[i] <==> EventsOf(s, t)[i] || bits[i] || i == ALIVE_BIT))
      && OnlyWord(s, s', t, v) && s' == s.(events := s'.events, carried := s'.carried)
      && s'.carried == if EventsOf(s, t)[ALIVE_BIT] then s.carried else s.carried[sig := t]
    ensures Enabled(s, SignalEnqueue(sig, w)) ==>
      var s' := Next(s, SignalEnqueue(sig, w));
      && (forall v: Worker :: QueueOf(s', v) == if v == w then QueueOf(s, w) + [s.carried[sig]] else QueueOf(s, v))
      && s' == s.(queue := s'.queue, carried := s.carried - {sig})
  {
  }

  /** `WaitForTask`: the head of the queue, or a task that is due, runs next. */
  lemma TakingSteps(s: Pool, w: Worker, i: nat, now: int)
    ensures Enabled(s, TakeQueued(w)) ==>
      var s' := Next(s, TakeQueued(w));
      && (forall v: Worker :: QueueOf(s, v) == (if v == w then [PhaseOf(s', w).task] else []) + QueueOf(s', v))
      && PhaseOf(s', w).Running? && OnlyPhase(s, s', w, PhaseOf(s', w)) && s' == s.(queue := s'.queue, phase := s'.phase)
    ensures Enabled(s, TakeTimer(w, i, now)) ==>
      var s' := Next(s, TakeTimer(w, i, now));
      && HeapOf(s, w)[i].due <= now && OnlyPhase(s, s', w, Running(HeapOf(s, w)[i].task))
      && (forall v: Worker :: HeapOf(s', v) == if v == w then RemoveAt(HeapOf(s, w), i) else HeapOf(s, v))
      && s' == s.(heap := s'.heap, phase := s'.phase)
  {
    if Enabled(s, TakeQueued(w)) {
      var q := QueueOf(s, w);
      assert q == [q[0]] + q[1..];
    }
  }

  /** `Task::GetEvents`: all events that are set are reported, and exactly these are
      cleared, also if more have been signalled since. */
  lemma GetEventsSteps(s: Pool, w: Worker)
    requires Inv(s)
    ensures Enabled(s, GetEventsRead(w)) ==>
      var s' := Next(s, GetEventsRead(w)); var p, t := PhaseOf(s', w), PhaseOf(s, w).task;
      && p.Reading? && p.task == t && OnlyPhase(s, s', w, p) && s' == s.(phase := s'.phase)
      && forall i :: 0 <= i < WIDTH ==> (p.events[i] <==> EventsOf(s, t)[i] && i != ALIVE_BIT)
    ensures Enabled(s, GetEventsSub(w)) ==>
      var s' := Next(s, GetEventsSub(w)); var Reading(t, e) := PhaseOf(s, w); var v := EventsOf(s', t);
      && OnlyPhase(s, s', w, Running(t)) && OnlyWord(s, s', t, v) && s' == s.(events := s'.events, phase := s'.phase)
      && forall i :: 0 <= i < WIDTH ==> (v[i] <==> EventsOf(s, t)[i] && !e[i])
  {
    if Enabled(s, GetEventsSub(w)) {
      var Reading(t, e) := PhaseOf(s, w);
      assert TaskOk(s, t);
      var place :| Fits(s, t, place);
      assert SnapshotOk(PhaseOf(s, w), t, EventsOf(s, t));
      SubClears(EventsOf(s, t), e);
    }
  }

  /** What the result of `Run` means: a negative one ends the task; any positive one puts
      it into the timer heap until that time has passed. */
  lemma ReturnStep(s: Pool, w: Worker, timeout: int, now: int)
    requires Enabled(s, RunReturns(w, timeout, now))
    ensures var s' := Next(s, RunReturns(w, timeout, now)); var t := PhaseOf(s, w).task;
      && OnlyPhase(s, s', w, if timeout < 0 then Waiting else if timeout == 0 then Finishing(t) else Tagging(t))
      && s'.live == (if timeout < 0 then s.live - {t} else s.live)
      && (forall v: Worker :: HeapOf(s', v) == if timeout > 0 && v == w then HeapOf(s, w) + [Timer(now + timeout, t)] else HeapOf(s, v))
      && s' == s.(live := s'.live, heap := s'.heap, phase := s'.phase)
  {
  }

  /** The word has no bit but the alive bit. */
  predicate NothingNew(v: Word) {
    forall i :: 0 <= i < WIDTH ==> (v[i] <==> i == ALIVE_BIT)
  }

  /** For the result 0 the task is left alone, unless it has new events, with which it runs
      again. */
  lemma FinishStep(s: Pool, w: Worker)
    requires Enabled(s, CompareAlive(w))
    ensures var s' := Next(s, CompareAlive(w)); var t := PhaseOf(s, w).task; var done := NothingNew(EventsOf(s, t));
      && OnlyPhase(s, s', w, if done then Waiting else Running(t))
      && OnlyWord(s, s', t, if done then NoEvents() else EventsOf(s, t)) && s' == s.(events := s'.events, phase := s'.phase)
  {
    OnlyAlive(EventsOf(s, PhaseOf(s, w).task));
  }

  lemma OnlyAlive(v: Word)
    ensures NothingNew(v) <==> v == OnlyBit(ALIVE_BIT)
  {
    if NothingNew(v) {
      assert forall i :: 0 <= i < WIDTH ==> v[i] == OnlyBit(ALIVE_BIT)[i];
    }
  }

  /** A task in the timer heap gets the idle event. */
  lemma TagStep(s: Pool, w: Worker)
    requires Enabled(s, TagIdle(w))
    ensures var s' := Next(s, TagIdle(w)); var t := PhaseOf(s, w).task; var v := EventsOf(s', t);
      && OnlyPhase(s, s', w, Waiting) && OnlyWord(s, s', t, v) && s' == s.(events := s'.events, phase := s'.phase)
      && forall i :: 0 <= i < WIDTH ==> (v[i] <==> EventsOf(s, t)[i] || i == IDLE_BIT)
  {
  }

  // ---------------------------------------------------------------- the queues

  /** The tasks that are delivered to the queue of `w` during a run, in order. */
  ghost function Delivered(s: Pool, es: seq<Step>, w: Worker): seq<Task>
    requires CanRun(s, es)
    decreases |es|
  {
    if es == [] then []
    else (if es[0].SignalEnqueue? && es[0].w == w then [s.carried[es[0].sig]] else []) + Delivered(Next(s, es[0]), es[1..], w)
  }

  /** The tasks that `w` takes off its queue during a run, in order. */
  ghost function Taken(s: Pool, es: seq<Step>, w: Worker): seq<Task>
    requires CanRun(s, es)
    decreases |es|
  {
    if es == [] then []
    else (if es[0] == TakeQueued(w) then [PhaseOf(Next(s, es[0]), w).task] else []) + Taken(Next(s, es[0]), es[1..], w)
  }

  lemma QueueStep(s: Pool, e: Step, w: Worker)
    requires Enabled(s, e)
    ensures var s' := Next(s, e);
      QueueOf(s, w) + (if e.SignalEnqueue? && e.w == w then [s.carried[e.sig]] else [])
      == (if e == TakeQueued(w) then [PhaseOf(s', w).task] else []) + QueueOf(s', w)
  {
    var q := QueueOf(s, w);
    if e == TakeQueued(w) {
      assert q == [q[0]] + q[1..];
    }
  }

  /** Along every interleaving each queue is served first come, first served: what was on
      it and what has been delivered is what has been taken and what is on it, in order. */
  lemma {:induction false} QueuesAreFifo(s: Pool, es: seq<Step>, w: Worker)
    requires CanRun(s, es)
    ensures QueueOf(s, w) + Delivered(s, es, w) == Taken(s, es, w) + QueueOf(Run(s, es), w)
    decreases |es|
  {
    if es == [] {
      assert QueueOf(s, w) + [] == [] + QueueOf(s, w);
    } else {
      var s' := Next(s, es[0]);
      QueueStep(s, es[0], w);
      QueuesAreFifo(s', es[1..], w);
      var d := if es[0].SignalEnqueue? && es[0].w == w then [s.carried[es[0].sig]] else [];
      var k := if es[0] == TakeQueued(w) then [PhaseOf(s', w).task] else [];
      FifoJoins(QueueOf(s, w), d, Delivered(s', es[1..], w), k, QueueOf(s', w), Taken(s', es[1..], w), QueueOf(Run(s', es[1..]), w));
    }
  }

  lemma FifoJoins<T>(q: seq<T>, d: seq<T>, ds: seq<T>, k: seq<T>, q': seq<T>, ks: seq<T>, q'': seq<T>)
    requires q + d == k + q' && q' + ds == ks + q''
    ensures q + (d + ds) == (k + ks) + q''
  {
    Associates(q, d, ds);
    Associates(k, q', ds);
    Associates(k, ks, q'');
  }

  // ---------------------------------------------------------------- the timers

  /** The run has a step that takes this timer off the heap of `w`, at a time that is not
      before it is due. */
  ghost predicate RunsOut(s: Pool, es: seq<Step>, w: Worker, timer: Timer)
    requires CanRun(s, es)
    decreases |es|
  {
    es != [] && (
      (es[0].TakeTimer? && es[0].w == w && HeapOf(s, w)[es[0].i] == timer && timer.due <= es[0].now)
      || RunsOut(Next(s, es[0]), es[1..], w, timer))
  }

  lemma TimerStep(s: Pool, e: Step, w: Worker, timer: Timer)
    requires Enabled(s, e) && timer in HeapOf(s, w)
    ensures timer in HeapOf(Next(s, e), w) || (e.TakeTimer? && e.w == w && HeapOf(s, w)[e.i] == timer && timer.due <= e.now)
  {
    var h := HeapOf(s, w);
    if e.TakeTimer? && e.w == w && h[e.i] != timer {
      var j :| 0 <= j < |h| && h[j] == timer;
      assert RemoveAt(h, e.i)[if j < e.i then j else j - 1] == timer;
    }
  }

  /** Along every interleaving a timer stays in its heap until it runs out. */
  lemma {:induction false} TimersStay(s: Pool, es: seq<Step>, w: Worker, timer: Timer)
    requires CanRun(s, es) && timer in HeapOf(s, w)
    ensures timer in HeapOf(Run(s, es), w) || RunsOut(s, es, w, timer)
    decreases |es|
  {
    if es != [] {
      TimerStep(s, es[0], w, timer);
      if timer in HeapOf(Next(s, es[0]), w) {
        TimersStay(Next(s, es[0]), es[1..], w, timer);
      }
    }
  }

  /** No pool thread runs a task that is in a timer heap. */
  lemma TimedIsNotRun(s: Pool, w: Worker, timer: Timer, v: Worker)
    requires Inv(s) && timer in HeapOf(s, w)
    ensures !Holds(PhaseOf(s, v), timer.task)
  {
    var t := timer.task;
    assert TaskOk(s, t);
    var place :| Fits(s, t, place);
    var i :| 0 <= i < |HeapOf(s, w)| && HeapOf(s, w)[i] == timer;
    assert TasksOf(HeapOf(s, w))[i] == t;
    assert multiset(TasksOf(HeapOf(s, w)))[t] > 0;
  }

  /** A task that asks for a delay is in the timer heap of its thread, and no thread runs
      it, until a reading of the clock that is not before the time of its request and the
      delay. */
  lemma DelayIsKept(s: Pool, w: Worker, timeout: int, now: int, es: seq<Step>, v: Worker)
    requires Inv(s) && Enabled(s, RunReturns(w, timeout, now)) && timeout > 0
    requires CanRun(Next(s, RunReturns(w, timeout, now)), es)
    ensures var s', timer := Next(s, RunReturns(w, timeout, now)), Timer(now + timeout, PhaseOf(s, w).task);
      RunsOut(s', es, w, timer)
      || (timer in HeapOf(Run(s', es), w) && !Holds(PhaseOf(Run(s', es), v), timer.task))
  {
    var s', timer := Next(s, RunReturns(w, timeout, now)), Timer(now + timeout, PhaseOf(s, w).task);
    ReturnStep(s, w, timeout, now);
    assert timer in HeapOf(s', w);
    StepKeeps(s, RunReturns(w, timeout, now));
    RunKeeps(s', es);
    TimersStay(s', es, w, timer);
    if timer in HeapOf(Run(s', es), w) {
      TimedIsNotRun(Run(s', es), w, timer, v);
    }
  }

  lemma {:induction false} EarliestTimer(h: seq<Timer>) returns (i: nat)
    requires h != []
    ensures i < |h| && forall j :: 0 <= j < |h| ==> h[i].due <= h[j].due
  {
    if |h| == 1 {
      i := 0;
    } else {
      var j := EarliestTimer(h[1..]);
      assert forall k :: 1 <= k < |h| ==> h[k] == h[1..][k - 1];
      i := if h[0].due <= h[j + 1].due then 0 else j + 1;
    }
  }

  /** When the time of some timer has come, a thread that waits for a task can take the
      earliest one, and runs it then. */
  lemma DueTaskCanRun(s: Pool, w: Worker, timer: Timer, now: int) returns (i: nat)
    requires w in s.workers && PhaseOf(s, w) == Waiting && timer in HeapOf(s, w) && timer.due <= now
    ensures Enabled(s, TakeTimer(w, i, now)) && HeapOf(s, w)[i].due <= timer.due
    ensures PhaseOf(Next(s, TakeTimer(w, i, now)), w) == Running(HeapOf(s, w)[i].task)
  {
    i := EarliestTimer(HeapOf(s, w));
    var j :| 0 <= j < |HeapOf(s, w)| && HeapOf(s, w)[j] == timer;
  }
}
