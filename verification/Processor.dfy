/** The virtual processor as the C code has it: thread records linked into the pointer
    heap, one of the three event systems, and the queues, which every call of
    state-threads/sched.c and state-threads/sync.c updates in place.  Whatever the
    event system, each call does to them what the function of the call in Scheduler
    does to their value. */
module Processor {
  import opened HeapLayout
  import opened HeapNames
  import opened PollSets
  import opened SeqFacts
  import opened Timeouts
  import opened EventSystems
  import opened Scheduler
  import opened SchedulerInvariant
  import opened SchedulerRuns
  import opened DispatchTheorems
  import H = TimeoutHeap

  /** What happens to the root of the heap, one change after the other. */
  lemma ExpireByParts(s: Vp, now: int)
    requires s.sleepQ != [] && HeapWithout(s.sleepQ, At(s.sleepQ, 1).who) == Delete(s.sleepQ, 1)
    ensures var root := At(s.sleepQ, 1); var s' := DelSleepQ(s, root.who); var x := Get(s', root.who);
      Expire(s, now) == MakeRunnable(
        With(s', root.who, Noted(x, ByTimeout(root.due, now)).(timedOut := x.timedOut || x.state.COND_WAIT?)), root.who)
  {
  }

  /** The heap as a heap of thread names. */
  ghost function Sleepers(sleep: H.SleepQueue): seq<Entry<Tid>>
    reads sleep, sleep.slots
  {
    Named(H.Entries(sleep.slots))
  }

  /** A definition below that begins with `forall k :: Opened(_, k) ==>` means what it
      says after that.  The solver looks behind it only in the proofs that mention
      `Opened(_, 0)`, and all other proofs stay small.  `Around` is for the predicate
      about the objects together, `Within` for what that one and others are made of. */
  predicate Opened(layer: Layer, k: int) {
    k >= 0
  }

  datatype Layer = Around | Within

  /** The heap and the event system are valid, and the heap holds `sleepers`. */
  ghost predicate PartsOk(sleep: H.SleepQueue, events: EventSystem, sleepers: seq<Entry<Tid>>)
    reads sleep, sleep.slots, events, events.parts
  {
    forall k :: Opened(Within, k) ==> sleep.Valid() && events.Valid() && sleepers == Sleepers(sleep)
  }

  /** `_st_add_sleep_q`. */
  method AddNamed(sleep: H.SleepQueue, x: H.Thread, timeout: int, ghost events: EventSystem, ghost sleepers: seq<Entry<Tid>>)
      returns (ghost after: seq<Entry<Tid>>)
    requires PartsOk(sleep, events, sleepers) && x !in sleep.slots
    requires events in events.parts && sleep !in events.parts && x !in events.parts && forall y :: y in sleep.slots ==> y !in events.parts
    modifies sleep`sleepQ, sleep`size, sleep`slots, sleep.slots, x
    ensures PartsOk(sleep, events, after) && after == Insert(sleepers, Entry(x.id, sleep.lastClock + timeout))
    ensures multiset(sleep.slots) == multiset(old(sleep.slots)) + multiset{x}
  {
    assert Opened(Within, 0);
    ghost var h := H.Entries(sleep.slots);
    sleep.AddSleepQ(x, timeout);
    NamedInsert(h, Entry(x, x.due));
    after := Sleepers(sleep);
  }

  /** The heap index in a record is where the thread is in the layout. */
  lemma IndexIsPos(sleep: H.SleepQueue, x: H.Thread)
    requires sleep.Valid() && x in sleep.slots && forall y :: y in sleep.slots && y.id == x.id ==> y == x
    ensures x.heapIndex == Pos(Sleepers(sleep), x.id)
  {
    var h, k := Sleepers(sleep), x.heapIndex;
    sleep.KnowsPosition(x);
    assert h[k - 1].who == x.id;
    var j := Pos(h, x.id);
    assert j > 0 && h[j - 1].who == sleep.slots[j - 1].id == x.id;
    assert sleep.slots[j - 1] in sleep.slots && sleep.NodeLinked(sleep.slots, j, 0);
  }

  /** `_st_del_sleep_q`. */
  method DeleteNamed(sleep: H.SleepQueue, x: H.Thread, ghost events: EventSystem, ghost sleepers: seq<Entry<Tid>>)
      returns (ghost after: seq<Entry<Tid>>)
    requires PartsOk(sleep, events, sleepers) && x in sleep.slots && forall y :: y in sleep.slots && y.id == x.id ==> y == x
    requires events in events.parts && sleep !in events.parts && forall y :: y in sleep.slots ==> y !in events.parts
    modifies sleep`sleepQ, sleep`size, sleep`slots, sleep.slots
    ensures PartsOk(sleep, events, after) && after == HeapWithout(sleepers, x.id)
    ensures multiset(old(sleep.slots)) == multiset(sleep.slots) + multiset{x} && x !in sleep.slots
  {
    assert Opened(Within, 0);
    ghost var h := H.Entries(sleep.slots);
    IndexIsPos(sleep, x);
    sleep.DelSleepQ(x);
    NamedDelete(h, old(x.heapIndex));
    after := Sleepers(sleep);
  }

  /** The threads in the heap are those that are flagged so, by their own records. */
  ghost predicate Linked(thr: map<Tid, Thread>, node: map<Tid, H.Thread>, slots: seq<H.Thread>) {
    forall k :: Opened(Within, k) ==>
      && node.Keys == thr.Keys
      && (forall t :: t in node ==> node[t].id == t)
      && (forall x :: x in slots ==> x.id in node && node[x.id] == x)
      && (forall t :: t in thr ==> (thr[t].onSleepQ <==> node[t] in slots))
  }

  lemma LinkedStill(thr: map<Tid, Thread>, node: map<Tid, H.Thread>, slots: seq<H.Thread>, t: Tid, x: Thread)
    requires Linked(thr, node, slots) && t in thr && x.onSleepQ == thr[t].onSleepQ
    ensures Linked(thr[t := x], node, slots)
  {
    assert Opened(Within, 0);
  }

  lemma LinkedNew(thr: map<Tid, Thread>, node: map<Tid, H.Thread>, slots: seq<H.Thread>, t: Tid, x: Thread, n: H.Thread)
    requires Linked(thr, node, slots) && t !in thr && !x.onSleepQ && n.id == t && n !in slots
    ensures Linked(thr[t := x], node[t := n], slots)
  {
    assert Opened(Within, 0);
  }

  lemma LinkedMore(thr: map<Tid, Thread>, node: map<Tid, H.Thread>, s0: seq<H.Thread>, t: Tid, s: seq<H.Thread>)
    requires Linked(thr, node, s0) && t in thr && t in node && !thr[t].onSleepQ
    requires multiset(s) == multiset(s0) + multiset{node[t]}
    ensures Linked(thr[t := thr[t].(onSleepQ := true)], node, s) && thr[t := thr[t].(onSleepQ := true)].Keys == thr.Keys
  {
    assert Opened(Within, 0);
    forall x ensures x in s <==> x in s0 || x == node[t] {
      assert x in s <==> x in multiset(s);
    }
  }

  lemma LinkedLess(thr: map<Tid, Thread>, node: map<Tid, H.Thread>, s0: seq<H.Thread>, t: Tid, s: seq<H.Thread>)
    requires Linked(thr, node, s0) && t in thr && t in node && node[t] !in s
    requires multiset(s0) == multiset(s) + multiset{node[t]}
    ensures Linked(thr[t := thr[t].(onSleepQ := false)], node, s) && thr[t := thr[t].(onSleepQ := false)].Keys == thr.Keys
  {
    assert Opened(Within, 0);
    forall x ensures x in s0 <==> x in s || x == node[t] {
      assert x in s0 <==> x in multiset(s0);
    }
  }

  /** Whose record a thread in the heap is, and which one is there. */
  lemma LinkedNode(thr: map<Tid, Thread>, node: map<Tid, H.Thread>, slots: seq<H.Thread>, t: Tid)
    requires Linked(thr, node, slots) && t in thr
    ensures t in node && node[t].id == t && (thr[t].onSleepQ <==> node[t] in slots)
    ensures forall y :: y in slots ==> y.id in thr && y.id in node && node[y.id] == y
    ensures forall y :: y in slots && y.id == t ==> y == node[t]
  {
    assert Opened(Within, 0);
  }

  /** Heap, event system, records and run queue fit together. */
  ghost predicate Bound(sleep: H.SleepQueue, events: EventSystem, sleepers: seq<Entry<Tid>>,
                        thr: map<Tid, Thread>, node: map<Tid, H.Thread>, runQ: seq<Tid>)
    reads sleep, sleep.slots, events, events.parts
  {
    forall k :: Opened(Around, k) ==>
      && PartsOk(sleep, events, sleepers) && Linked(thr, node, sleep.slots)
      && node.Values !! events.parts
      && (forall t :: t in runQ ==> t in thr)
      && (forall x :: x in sleep.slots ==> x in node.Values)
  }

  lemma BoundAtStart(sleep: H.SleepQueue, events: EventSystem, thr: map<Tid, Thread>, node: map<Tid, H.Thread>)
    requires sleep.Valid() && sleep.slots == [] && events.Valid()
    requires thr.Keys == node.Keys && node.Values !! events.parts
    requires forall t :: t in node ==> node[t].id == t && !thr[t].onSleepQ
    ensures Bound(sleep, events, [], thr, node, [])
  {
    assert Sleepers(sleep) == [];
  }

  /** The invariant of the scheduler, where its parts do not matter. */
  ghost predicate Sane(s: Vp) {
    forall k :: Opened(Within, k) ==> Inv(s)
  }

  /** `Enabled` and `Do`, where the call does not matter. */
  ghost predicate MayDo(s: Vp, e: Event) {
    forall k :: Opened(Within, k) ==> Enabled(s, e)
  }

  ghost predicate Does(s: Vp, e: Event, s': Vp, r: Outcome) {
    forall k :: Opened(Within, k) ==> (s', r) == Do(s, e)
  }

  lemma DoIsDoes(s: Vp, e: Event, s': Vp, r: Outcome)
    requires (s', r) == Do(s, e)
    ensures Does(s, e, s', r)
  {
  }

  lemma DoesIsDo(s: Vp, e: Event, s': Vp, r: Outcome)
    requires Does(s, e, s', r) && Sane(s) && MayDo(s, e)
    ensures (s', r) == Do(s, e) && Sane(s')
  {
    assert Opened(Within, 0);
    StepKeeps(s, e);
  }

  ghost predicate Serves(s: Vp, answer: Answer, s': Vp) {
    forall k :: Opened(Within, k) ==> s' == ServeIo(s, 0, answer)
  }

  ghost predicate Checks(s: Vp, now: int, s': Vp) {
    forall k :: Opened(Within, k) ==> s' == CheckClock(s, now)
  }

  ghost predicate Turns(s: Vp, answer: Answer, now: int, s': Vp) {
    forall k :: Opened(Within, k) ==> s' == IdleTurn(s, answer, now).0
  }

  lemma ServesByParts(s: Vp, answer: Answer, s': Vp)
    requires s' == WakeAll(s.(ioQ := Kept(s.ioQ, answer)), Woken(s.ioQ, answer))
    ensures Serves(s, answer, s')
  {
    ServeAll(s, answer);
  }

  lemma TurnByParts(s: Vp, s1: Vp, s2: Vp, s3: Vp, answer: Answer, now: int)
    requires Serves(s, answer, s1) && Checks(s1, now, s2) && s3 == Schedule(Block(s2, RUNNABLE, InIdle))
    ensures Turns(s, answer, now, s3)
  {
    assert Opened(Within, 0);
  }

  lemma TurnIsDoes(s: Vp, answer: Answer, now: int, s': Vp)
    requires Turns(s, answer, now, s')
    ensures Does(s, EvIdle(answer, now), s', Switched)
  {
    assert Opened(Within, 0);
  }

  /** A dispatch looks no further than at the root of the heap. */
  lemma RootDecides(kind: Kind, ready: PollSets.Ready, root: seq<Entry<Tid>>, h: seq<Entry<Tid>>, lastClock: int)
    requires if h == [] then root == [] else root == [At(h, 1)]
    ensures Answered(kind, ready, root, lastClock) == Answered(kind, ready, h, lastClock)
    ensures LongestWait(kind, root, lastClock) == LongestWait(kind, h, lastClock)
  {
    assert h != [] ==> At(root, 1) == At(h, 1);
  }

  /** A thread becomes a zombie, signals its end on `cv`, and another one runs. */
  ghost predicate Ends(s: Vp, cv: Cv, s': Vp) {
    forall k :: Opened(Within, k) ==>
      var s1 := Block(s.(zombieQ := s.zombieQ + [s.cur]), ZOMBIE, InExit);
      s' == Schedule(SignalAlong(s1, WaitQ(s1, cv), false))
  }

  lemma EndsByParts(s: Vp, cv: Cv, s1: Vp, s2: Vp, s3: Vp)
    requires s1 == Block(s.(zombieQ := s.zombieQ + [s.cur]), ZOMBIE, InExit)
    requires s2 == CondSignal(s1, cv, false).0 && s3 == Schedule(s2)
    ensures Ends(s, cv, s3)
  {
  }

  lemma ExitByParts(s: Vp, s1: Vp, s': Vp)
    requires Me(s).term.Some? && s1 == s.(active := s.active - 1) && Ends(s1, Me(s).term.value, s')
    ensures Does(s, EvExit, s', Switched)
  {
    assert Opened(Within, 0);
  }

  /** A thread is gone, and another one runs. */
  ghost predicate Leaves(s: Vp, s': Vp) {
    forall k :: Opened(Within, k) ==> s' == Schedule(With(s, s.cur, Me(s).(pc := Dead)))
  }

  lemma LeavesByParts(s: Vp, s': Vp)
    requires s' == Schedule(With(s, s.cur, Me(s).(pc := Dead)))
    ensures Leaves(s, s')
  {
  }

  lemma GoneByParts(s: Vp, s1: Vp, s': Vp)
    requires Me(s).term.None? && s1 == s.(active := s.active - 1) && Leaves(s1, s')
    ensures Does(s, EvExit, s', Switched)
  {
    assert Opened(Within, 0);
  }

  lemma CreateByParts(s: Vp, t: Tid, term: Option<Cv>, s1: Vp, s': Vp)
    requires s1 == if term.Some? then s.(conds := s.conds[term.value := Cond([], Some(t))]) else s
    requires s' == With(s1, t, Thread(RUNNABLE, false, false, false, term, User)).(active := s1.active + 1, runQ := s1.runQ + [t])
    ensures Does(s, EvCreate(t, term), s', Returned(t))
  {
  }

  /** The event as the event system settles it: whether a poll is accepted, and what a
      dispatch gets to see of what is ready. */
  function Settled(kind: Kind, s: Vp, e: Event, refused: set<int>): Event {
    match e
    case EvPoll(pds, _, timeout) => EvPoll(pds, Accepts(kind, s.ioQ, pds, refused), timeout)
    case EvIdle(answer, now) => EvIdle(Answered(kind, answer.ready, s.sleepQ, s.lastClock), now)
    case _ => e
  }

  /** The events of a run, each settled in the state that it finds. */
  function SettledAll(kind: Kind, s: Vp, calls: seq<(Event, set<int>)>): (es: seq<Event>)
    ensures |es| == |calls|
    decreases |calls|
  {
    if calls == [] then []
    else
      var e := Settled(kind, s, calls[0].0, calls[0].1);
      [e] + SettledAll(kind, Step(s, e), calls[1..])
  }

  function Outcomes(s: Vp, es: seq<Event>): (rs: seq<Outcome>)
    ensures |rs| == |es|
    decreases |es|
  {
    if es == [] then [] else [Do(s, es[0]).1] + Outcomes(Step(s, es[0]), es[1..])
  }

  /** Every call is one that may be made when its turn comes. */
  ghost predicate MayDoAll(kind: Kind, s: Vp, calls: seq<(Event, set<int>)>) {
    forall k :: Opened(Within, k) ==> CanRun(s, SettledAll(kind, s, calls))
  }

  ghost predicate DoesAll(kind: Kind, s: Vp, calls: seq<(Event, set<int>)>, s': Vp, rs: seq<Outcome>) {
    forall k :: Opened(Within, k) ==>
      var es := SettledAll(kind, s, calls);
      s' == Run(s, es) && rs == Outcomes(s, es)
  }

  lemma FirstMayBeDone(kind: Kind, s: Vp, calls: seq<(Event, set<int>)>)
    requires MayDoAll(kind, s, calls) && calls != []
    ensures Enabled(s, calls[0].0)
    ensures MayDoAll(kind, Step(s, Settled(kind, s, calls[0].0, calls[0].1)), calls[1..])
  {
    assert Opened(Within, 0);
    var e := Settled(kind, s, calls[0].0, calls[0].1);
    var rest := SettledAll(kind, Step(s, e), calls[1..]);
    assert ([e] + rest)[1..] == rest;
  }

  lemma NothingDone(kind: Kind, s: Vp)
    ensures DoesAll(kind, s, [], s, [])
  {
  }

  lemma FirstThenRest(kind: Kind, s: Vp, calls: seq<(Event, set<int>)>, s': Vp, r: Outcome, rs: seq<Outcome>)
    requires calls != [] && DoesAll(kind, Step(s, Settled(kind, s, calls[0].0, calls[0].1)), calls[1..], s', rs)
    requires r == Do(s, Settled(kind, s, calls[0].0, calls[0].1)).1
    ensures DoesAll(kind, s, calls, s', [r] + rs)
  {
    assert Opened(Within, 0);
    var e := Settled(kind, s, calls[0].0, calls[0].1);
    var rest := SettledAll(kind, Step(s, e), calls[1..]);
    assert ([e] + rest)[1..] == rest;
  }

  lemma SettledMayDo(s: Vp, e: Event, kind: Kind, refused: set<int>)
    requires Enabled(s, e)
    ensures MayDo(s, e) && MayDo(s, Settled(kind, s, e, refused))
  {
  }

  lemma StartsSane(idle: Tid, primordial: Tid, now: int)
    requires idle != primordial
    ensures Sane(Init(idle, primordial, now))
  {
    InitIsOk(idle, primordial, now);
  }

  lemma WaitersKnown(s: Vp, cv: Cv)
    requires Inv(s)
    ensures forall t :: t in WaitQ(s, cv) ==> t in s.thr
  {
    assert CondOk(s, cv);
    forall t: Tid | t in WaitQ(s, cv) ensures t in s.thr {
      assert multiset(WaitQ(s, cv))[t] > 0;
    }
  }

  lemma LockersKnown(s: Vp, m: Mx)
    requires Inv(s)
    ensures forall t :: t in MutexOf(s, m).waitQ ==> t in s.thr
  {
    assert MutexOk(s, m);
    forall t: Tid | t in MutexOf(s, m).waitQ ensures t in s.thr {
      assert multiset(MutexOf(s, m).waitQ)[t] > 0;
    }
  }

  lemma PollersKnown(s: Vp)
    requires Inv(s)
    ensures forall i :: 0 <= i < |s.ioQ| ==> s.ioQ[i].thread in s.thr
  {
    forall i | 0 <= i < |s.ioQ| ensures s.ioQ[i].thread in s.thr {
      assert Pollers(s.ioQ)[i] in multiset(Pollers(s.ioQ));
      assert OnIo(Get(s, s.ioQ[i].thread));
    }
  }

  /** The caller has a record and is not in the heap. */
  lemma CallerKnown(s: Vp, e: Event)
    requires Sane(s) && MayDo(s, e)
    ensures s.cur in s.thr && !s.thr[s.cur].onSleepQ
  {
    assert Opened(Within, 0);
    assert Coherent(Me(s));
  }

  /** A call on a condition variable finds it, and its waiters have a record. */
  lemma CondKnown(s: Vp, e: Event)
    requires Sane(s) && MayDo(s, e) && (e.EvWait? || e.EvSignal? || e.EvCondDestroy?)
    ensures e.cv in s.conds && forall t :: t in s.conds[e.cv].waitQ ==> t in s.thr
  {
    assert Opened(Within, 0);
    WaitersKnown(s, e.cv);
  }

  lemma MutexKnown(s: Vp, e: Event)
    requires Sane(s) && MayDo(s, e) && (e.EvMutexDestroy? || e.EvLock? || e.EvTryLock? || e.EvUnlock?)
    ensures e.m in s.mutexes && forall t :: t in s.mutexes[e.m].waitQ ==> t in s.thr
  {
    assert Opened(Within, 0);
    LockersKnown(s, e.m);
  }

  /** A thread that ends finds its termination variable, if it has one. */
  lemma ExitKnown(s: Vp)
    requires Sane(s) && MayDo(s, EvExit) && Me(s).term.Some?
    ensures Me(s).term.value in s.conds && forall t :: t in s.conds[Me(s).term.value].waitQ ==> t in s.thr
  {
    assert Opened(Within, 0);
    WaitersKnown(s, Me(s).term.value);
  }

  /** A call on a thread finds it, and its termination variable, if it has one. */
  lemma ThreadKnown(s: Vp, e: Event)
    requires Sane(s) && MayDo(s, e)
    ensures e.EvJoin? && e.t in s.thr && s.thr[e.t].term.Some? ==> s.thr[e.t].term.value in s.conds
    ensures e.EvInterrupt? ==> e.t in s.thr
    ensures e.EvCreate? ==> e.t !in s.thr
  {
    assert Opened(Within, 0);
  }

  lemma IoKnown(s: Vp)
    requires Sane(s)
    ensures forall i :: 0 <= i < |s.ioQ| ==> s.ioQ[i].thread in s.thr
  {
    assert Opened(Within, 0);
    PollersKnown(s);
  }

  /** What a thread that goes on finds: the object that it waited on. */
  lemma ResumeKnown(s: Vp)
    requires Sane(s)
    ensures var pc := Me(s).pc;
      && (pc.InCondWait? || pc.InJoin? ==> pc.cv in s.conds)
      && (pc.InJoin? ==> pc.target in s.thr)
      && (pc.InLock? ==> pc.m in s.mutexes)
  {
    assert Opened(Within, 0);
    var x := Me(s);
    assert Coherent(x);
    if x.pc.InLock? {
      assert MutexOk(s, x.pc.m);
    }
  }

  class VirtualProcessor {
    const sleep: H.SleepQueue
    const events: EventSystem
    var idle: Tid
    var cur: Tid
    var active: int
    var thr: map<Tid, Thread>
    var node: map<Tid, H.Thread>         // the heap fields of each thread record
    var runQ: seq<Tid>
    var zombieQ: seq<Tid>
    var conds: map<Cv, Cond>
    var mutexes: map<Mx, Mutex>

    ghost var sleepers: seq<Entry<Tid>>  // the heap, by names

    /** What the objects stand for. */
    ghost function Value(): Vp
      reads this, sleep, events
    {
      Vp(idle, cur, active, sleep.lastClock, thr, runQ, events.requests, zombieQ, sleepers, conds, mutexes)
    }

    /** Between any two changes of the thread records, the run queue or the heap; the
        objects of the event system are none of the scheduler's own. */
    ghost predicate Valid()
      reads this, sleep, sleep.slots, events, events.parts
    {
      && events in events.parts && this !in events.parts && sleep !in events.parts
      && idle in thr && cur in thr && node.Keys == thr.Keys
      && Bound(sleep, events, sleepers, thr, node, runQ)
    }

    /** `st_init`: the idle thread is created and taken off the run queue again,
        and the caller becomes the primordial thread. */
    constructor (events: EventSystem, idleThread: Tid, primordial: Tid, now: int)
      requires idleThread != primordial && events.Valid() && events.requests == []
      ensures Valid() && Value() == Init(idleThread, primordial, now) && Sane(Value())
      ensures this.events == events && fresh(sleep) && fresh(node.Values)
    {
      this.events := events;
      sleep := new H.SleepQueue(now);
      sleepers := [];
      idle, cur := idleThread, primordial;
      runQ, zombieQ := [], [];
      conds, mutexes := map[], map[];
      active := 1;
      var idleNode := new H.Thread(idleThread);
      var primordialNode := new H.Thread(primordial);
      node := map[idleThread := idleNode, primordial := primordialNode];
      thr := map[idleThread := Thread(RUNNABLE, false, false, false, None, InIdle),
                 primordial := Thread(RUNNING, false, false, false, None, User)];
      StartsSane(idleThread, primordial, now);
      new;
      BoundAtStart(sleep, events, thr, node);
    }

    // ------------------------------------------------------------ small changes

    /** A change of a thread record outside of its heap fields. */
    method Put(t: Tid, x: Thread)
      requires Valid() && t in thr && x.onSleepQ == thr[t].onSleepQ
      modifies this`thr
      ensures Valid() && Value() == With(old(Value()), t, x) && thr.Keys == old(thr.Keys) && node == old(node)
    {
      assert Opened(Around, 0);
      LinkedStill(thr, node, sleep.slots, t, x);
      thr := thr[t := x];
    }

    /** The heap fields of a record are linked in, and the heap is that of a thread with
        the flag. */
    method LinkRecord(t: Tid, timeout: int)
      requires Valid() && t in thr && !thr[t].onSleepQ
      modifies this`sleepers, sleep, node.Values
      ensures Bound(sleep, events, sleepers, thr[t := thr[t].(onSleepQ := true)], node, runQ)
      ensures thr[t := thr[t].(onSleepQ := true)].Keys == thr.Keys
      ensures sleepers == Insert(old(sleepers), Entry(t, old(sleep.lastClock) + timeout)) && sleep.lastClock == old(sleep.lastClock)
    {
      ghost var s0 := sleep.slots;
      Unbind();
      LinkedNode(thr, node, s0, t);
      sleepers := AddNamed(sleep, node[t], timeout, events, sleepers);
      LinkedMore(thr, node, s0, t, sleep.slots);
      Bind(thr[t := thr[t].(onSleepQ := true)]);
    }

    /** `_ST_ADD_SLEEPQ`, if there is a timeout. */
    method AddToSleepQ(t: Tid, timeout: Option<nat>)
      requires Valid() && t in thr && !thr[t].onSleepQ
      modifies this`thr, this`sleepers, sleep, node.Values
      ensures Valid() && Value() == AddSleepQ(old(Value()), t, timeout) && thr.Keys == old(thr.Keys) && node == old(node)
    {
      if timeout.Some? {
        LinkRecord(t, timeout.value);
        thr := thr[t := thr[t].(onSleepQ := true)];
      }
    }

    /** The heap fields of a record are unlinked. */
    method UnlinkRecord(t: Tid)
      requires Valid() && t in thr && thr[t].onSleepQ
      modifies this`sleepers, sleep, node.Values
      ensures Bound(sleep, events, sleepers, thr[t := thr[t].(onSleepQ := false)], node, runQ)
      ensures thr[t := thr[t].(onSleepQ := false)].Keys == thr.Keys
      ensures sleepers == HeapWithout(old(sleepers), t) && sleep.lastClock == old(sleep.lastClock)
    {
      ghost var s0 := sleep.slots;
      Unbind();
      LinkedNode(thr, node, s0, t);
      sleepers := DeleteNamed(sleep, node[t], events, sleepers);
      LinkedLess(thr, node, s0, t, sleep.slots);
      Bind(thr[t := thr[t].(onSleepQ := false)]);
    }

    /** `_ST_DEL_SLEEPQ`. */
    method DeleteFromSleepQ(t: Tid)
      requires Valid() && t in thr && thr[t].onSleepQ
      modifies this`thr, this`sleepers, sleep, node.Values
      ensures Valid() && Value() == DelSleepQ(old(Value()), t) && thr.Keys == old(thr.Keys) && node == old(node)
    {
      UnlinkRecord(t);
      thr := thr[t := thr[t].(onSleepQ := false)];
    }

    lemma Unbind()
      requires Valid()
      ensures PartsOk(sleep, events, sleepers) && Linked(thr, node, sleep.slots) && node.Values !! events.parts
      ensures (forall t :: t in runQ ==> t in thr) && (forall x :: x in sleep.slots ==> x in node.Values)
    {
      assert Opened(Around, 0);
    }

    lemma Bind(records: map<Tid, Thread>)
      requires PartsOk(sleep, events, sleepers) && Linked(records, node, sleep.slots) && node.Values !! events.parts
      requires forall t :: t in runQ ==> t in records
      ensures Bound(sleep, events, sleepers, records, node, runQ)
    {
      assert Opened(Within, 0);
      assert forall x :: x in sleep.slots ==> x in node.Values;
    }

    /** State RUNNABLE and `_ST_ADD_RUNQ`. */
    method MakeItRunnable(t: Tid)
      requires Valid() && t in thr
      modifies this`thr, this`runQ
      ensures Valid() && Value() == MakeRunnable(old(Value()), t) && thr.Keys == old(thr.Keys) && node == old(node)
    {
      Put(t, thr[t].(state := RUNNABLE));
      AddToRunQ(t);
    }

    /** `_ST_ADD_RUNQ`. */
    method AddToRunQ(t: Tid)
      requires Valid() && t in thr
      modifies this`runQ
      ensures Valid() && Value() == old(Value()).(runQ := old(runQ) + [t])
    {
      assert Opened(Around, 0);
      runQ := runQ + [t];
    }

    method WakeUp(t: Tid)
      requires Valid() && t in thr
      modifies this`thr, this`runQ, this`sleepers, sleep, node.Values
      ensures Valid() && Value() == Wake(old(Value()), t) && thr.Keys == old(thr.Keys) && node == old(node)
    {
      if thr[t].onSleepQ {
        DeleteFromSleepQ(t);
      }
      MakeItRunnable(t);
    }

    /** `_st_vp_schedule`. */
    method SwitchContext()
      requires Valid()
      modifies this`thr, this`runQ, this`cur
      ensures Valid() && Value() == Schedule(old(Value()))
    {
      assert Opened(Around, 0);
      if runQ != [] {
        assert runQ[0] in runQ;
        cur := runQ[0];
        runQ := runQ[1..];
      } else {
        cur := idle;
      }
      Put(cur, thr[cur].(state := RUNNING));
    }

    /** A pending interrupt is cleared, and the caller told of it. */
    method Interrupted() returns (was: bool)
      requires Valid()
      modifies this`thr
      ensures Valid() && was == Me(old(Value())).interrupt && thr.Keys == old(thr.Keys) && node == old(node)
      ensures Value() == if was then ClearInterrupt(old(Value())) else old(Value())
    {
      was := thr[cur].interrupt;
      if was {
        Put(cur, thr[cur].(interrupt := false));
      }
    }

    method GiveWay(state: State, pc: Point)
      requires Valid()
      modifies this`thr
      ensures Valid() && Value() == Block(old(Value()), state, pc)
    {
      Put(cur, thr[cur].(state := state, pc := pc));
    }

    /** The current thread waits for something. */
    method SwitchAway(state: State, pc: Point)
      requires Valid()
      modifies this`thr, this`runQ, this`cur
      ensures Valid() && Value() == Schedule(Block(old(Value()), state, pc))
    {
      GiveWay(state, pc);
      SwitchContext();
    }

    // ---------------------------------------------------------- polls and sleeps

    /** `st_poll` up to the switch. */
    method StPoll(pds: seq<PollFd>, timeout: Option<nat>, refused: set<int>) returns (r: Outcome)
      requires Valid() && !thr[cur].onSleepQ
      modifies this, sleep, node.Values, events.parts
      ensures Valid()
      ensures (Value(), r) == Poll(old(Value()), pds, Accepts(events.Which(), old(Value()).ioQ, pds, refused), timeout)
      ensures fresh(events.parts - old(events.parts)) && node == old(node)
    {
      var interrupted := Interrupted();
      if interrupted {
        return Failed(EINTR);
      }
      var ok := EnqueueMine(pds, refused);
      if !ok {
        return Failed(REFUSED);
      }
      AddToSleepQ(cur, timeout);
      SwitchAway(IO_WAIT, InPoll(None));
      return Switched;
    }

    /** `pollset_add` and `_ST_ADD_IOQ` for the current thread. */
    method EnqueueMine(pds: seq<PollFd>, refused: set<int>) returns (ok: bool)
      requires Valid()
      modifies events.parts
      ensures Valid() && fresh(events.parts - old(events.parts))
      ensures ok <==> Accepts(events.Which(), old(Value()).ioQ, pds, refused)
      ensures Value() == if ok then old(Value()).(ioQ := old(Value()).ioQ + [PollQ(cur, Strip(pds))]) else old(Value())
    {
      assert Opened(Around, 0) && Opened(Within, 0);
      ok := events.Enqueue(PollQ(cur, pds), refused);
    }

    /** The loop of `st_poll` that counts the ready descriptors. */
    static method Ready(pds: seq<PollFd>) returns (n: nat)
      ensures n == CountReady(pds)
    {
      n := 0;
      var i := |pds|;
      while i > 0
        invariant 0 <= i <= |pds| && n == CountReady(pds[i..])
      {
        i := i - 1;
        assert pds[i..][1..] == pds[i + 1..];
        if pds[i].revents != {} {
          n := n + 1;
        }
      }
    }

    /** `_ST_DEL_IOQ` and `pollset_del` for the element of the current thread. */
    method WithdrawMine()
      requires Valid()
      modifies events.parts
      ensures Valid() && fresh(events.parts - old(events.parts))
      ensures Value() == old(Value()).(ioQ := WithoutThread(old(Value()).ioQ, cur))
    {
      assert Opened(Around, 0) && Opened(Within, 0);
      events.WithdrawThread(cur);
    }

    /** `st_poll` after the switch. */
    method PollAfterSwitch(fired: Option<seq<PollFd>>) returns (r: Outcome)
      requires Valid()
      modifies this, events.parts
      ensures Valid() && (Value(), r) == PollResumed(old(Value()), fired)
      ensures fresh(events.parts - old(events.parts)) && node == old(node)
    {
      var n := 0;
      Put(cur, thr[cur].(pc := User));
      if fired.None? {
        WithdrawMine();
      } else {
        n := Ready(fired.value);
      }
      var interrupted := Interrupted();
      return if interrupted then Failed(EINTR) else Returned(n);
    }

    /** `st_usleep` up to the switch. */
    method StUSleep(timeout: Option<nat>) returns (r: Outcome)
      requires Valid() && !thr[cur].onSleepQ
      modifies this, sleep, node.Values
      ensures Valid() && (Value(), r) == USleep(old(Value()), timeout) && node == old(node)
    {
      var interrupted := Interrupted();
      if interrupted {
        return Failed(EINTR);
      }
      AddToSleepQ(cur, timeout);
      SwitchAway(if timeout.Some? then SLEEPING else SUSPENDED, InSleep);
      return Switched;
    }

    /** `st_usleep` after the switch. */
    method SleepAfterSwitch() returns (r: Outcome)
      requires Valid()
      modifies this
      ensures Valid() && (Value(), r) == SleepResumed(old(Value())) && node == old(node)
    {
      Put(cur, thr[cur].(pc := User));
      var interrupted := Interrupted();
      return if interrupted then Failed(EINTR) else Returned(0);
    }

    // ------------------------------------------------------- condition variables

    /** `st_cond_timedwait` up to the switch. */
    method StCondTimedWait(cv: Cv, timeout: Option<nat>) returns (r: Outcome)
      requires Valid() && cv in conds && !thr[cur].onSleepQ
      modifies this, sleep, node.Values
      ensures Valid() && (Value(), r) == CondTimedWait(old(Value()), cv, timeout) && node == old(node)
    {
      var interrupted := Interrupted();
      if interrupted {
        return Failed(EINTR);
      }
      conds := conds[cv := conds[cv].(waitQ := conds[cv].waitQ + [cur])];
      AddToSleepQ(cur, timeout);
      SwitchAway(COND_WAIT, InCondWait(cv, Waiting));
      return Switched;
    }

    /** `st_cond_timedwait` after the switch. */
    method CondAfterSwitch(cv: Cv) returns (r: Outcome)
      requires Valid() && cv in conds
      modifies this
      ensures Valid() && (Value(), r) == CondResumed(old(Value()), cv) && node == old(node)
      ensures conds.Keys == old(conds.Keys) && cur == old(cur)
    {
      conds := conds[cv := conds[cv].(waitQ := Without(conds[cv].waitQ, cur))];
      r := Returned(0);
      if thr[cur].timedOut {
        r := Failed(ETIME);
      }
      if thr[cur].interrupt {
        r := Failed(EINTR);
      }
      Put(cur, thr[cur].(pc := User, timedOut := false, interrupt := false));
    }

    /** `_st_cond_signal`: along the wait queue, up to the first thread that waits
        or, for a broadcast, to the end. */
    method StCondSignal(cv: Cv, broadcast: bool)
      requires Valid() && cv in conds && forall t :: t in conds[cv].waitQ ==> t in thr
      modifies this`thr, this`runQ, this`sleepers, sleep, node.Values
      ensures Valid() && Value() == CondSignal(old(Value()), cv, broadcast).0
    {
      var q, i, done := conds[cv].waitQ, 0, false;
      ghost var goal := SignalAlong(Value(), q, broadcast);
      assert q[0..] == q;
      while i < |q| && !done
        invariant 0 <= i <= |q| && Valid() && thr.Keys == old(thr.Keys) && node == old(node)
        invariant goal == if done then Value() else SignalAlong(Value(), q[i..], broadcast)
      {
        assert q[i..][0] == q[i] && q[i..][1..] == q[i + 1..];
        if thr[q[i]].state.COND_WAIT? {
          Signal(q[i]);
          done := !broadcast;
        }
        i := i + 1;
      }
    }

    /** A waiting thread is woken by a signal. */
    method Signal(t: Tid)
      requires Valid() && t in thr
      modifies this`thr, this`runQ, this`sleepers, sleep, node.Values
      ensures var s := old(Value());
        Valid() && Value() == Wake(With(s, t, Noted(Get(s, t), BySignal)), t) && thr.Keys == old(thr.Keys) && node == old(node)
    {
      Put(t, Noted(thr[t], BySignal));
      WakeUp(t);
    }

    /** `st_cond_new`. */
    method StCondNew(cv: Cv) returns (r: Outcome)
      requires Valid()
      modifies this`conds
      ensures Valid() && (Value(), r) == CondNew(old(Value()), cv)
    {
      conds := conds[cv := Cond([], None)];
      return Returned(cv);
    }

    /** `st_cond_destroy`. */
    method StCondDestroy(cv: Cv) returns (r: Outcome)
      requires Valid() && cv in conds
      modifies this`conds
      ensures Valid() && (Value(), r) == CondDestroy(old(Value()), cv)
    {
      if conds[cv].waitQ != [] {
        return Failed(EBUSY);
      }
      conds := conds - {cv};
      return Returned(0);
    }

    // ------------------------------------------------------------------- mutexes

    /** `st_mutex_new`. */
    method StMutexNew(m: Mx) returns (r: Outcome)
      requires Valid()
      modifies this`mutexes
      ensures Valid() && (Value(), r) == MutexNew(old(Value()), m)
    {
      mutexes := mutexes[m := Mutex(None, [])];
      return Returned(m);
    }

    /** `st_mutex_destroy`. */
    method StMutexDestroy(m: Mx) returns (r: Outcome)
      requires Valid() && m in mutexes
      modifies this`mutexes
      ensures Valid() && (Value(), r) == MutexDestroy(old(Value()), m)
    {
      if mutexes[m].owner.Some? || mutexes[m].waitQ != [] {
        return Failed(EBUSY);
      }
      mutexes := mutexes - {m};
      return Returned(0);
    }

    /** `st_mutex_lock` up to the switch. */
    method StMutexLock(m: Mx) returns (r: Outcome)
      requires Valid() && m in mutexes
      modifies this
      ensures Valid() && (Value(), r) == MutexLock(old(Value()), m) && node == old(node)
    {
      var interrupted := Interrupted();
      if interrupted {
        return Failed(EINTR);
      }
      if mutexes[m].owner.None? {
        mutexes := mutexes[m := mutexes[m].(owner := Some(cur))];
        return Returned(0);
      }
      if mutexes[m].owner == Some(cur) {
        return Failed(EDEADLK);
      }
      mutexes := mutexes[m := mutexes[m].(waitQ := mutexes[m].waitQ + [cur])];
      SwitchAway(LOCK_WAIT, InLock(m));
      return Switched;
    }

    /** `st_mutex_lock` after the switch. */
    method LockAfterSwitch(m: Mx) returns (r: Outcome)
      requires Valid() && m in mutexes
      modifies this
      ensures Valid() && (Value(), r) == LockResumed(old(Value()), m) && node == old(node)
    {
      mutexes := mutexes[m := mutexes[m].(waitQ := Without(mutexes[m].waitQ, cur))];
      Put(cur, thr[cur].(pc := User));
      if thr[cur].interrupt && mutexes[m].owner != Some(cur) {
        Put(cur, thr[cur].(interrupt := false));
        return Failed(EINTR);
      }
      return Returned(0);
    }

    /** `st_mutex_unlock`: along the wait queue, up to the first thread in LOCK_WAIT. */
    method StMutexUnlock(m: Mx) returns (r: Outcome)
      requires Valid() && m in mutexes && forall t :: t in mutexes[m].waitQ ==> t in thr
      modifies this
      ensures Valid() && (Value(), r) == MutexUnlock(old(Value()), m) && node == old(node)
    {
      if mutexes[m].owner != Some(cur) {
        return Failed(EPERM);
      }
      var q, i := mutexes[m].waitQ, 0;
      assert q[0..] == q;
      while i < |q|
        invariant 0 <= i <= |q| && Valid() && Value() == old(Value()) && node == old(node)
        invariant HandOver(Value(), m, q[i..]) == HandOver(Value(), m, q)
      {
        assert q[i..][0] == q[i] && q[i..][1..] == q[i + 1..];
        if thr[q[i]].state.LOCK_WAIT? {
          mutexes := mutexes[m := mutexes[m].(owner := Some(q[i]))];
          MakeItRunnable(q[i]);
          return Returned(0);
        }
        i := i + 1;
      }
      mutexes := mutexes[m := mutexes[m].(owner := None)];
      return Returned(0);
    }

    /** `st_mutex_trylock`. */
    method StMutexTryLock(m: Mx) returns (r: Outcome)
      requires Valid() && m in mutexes
      modifies this`mutexes
      ensures Valid() && (Value(), r) == MutexTryLock(old(Value()), m)
    {
      if mutexes[m].owner.Some? {
        return Failed(EBUSY);
      }
      mutexes := mutexes[m := mutexes[m].(owner := Some(cur))];
      return Returned(0);
    }

    // ---------------------------------------------------- create, exit, join

    /** `st_thread_create`: a new record, with a termination variable if the thread is
        joinable. */
    method StThreadCreate(t: Tid, term: Option<Cv>) returns (r: Outcome)
      requires Valid() && t !in thr
      modifies this
      ensures Valid() && Does(old(Value()), EvCreate(t, term), Value(), r)
      ensures fresh(node.Values - old(node.Values))
    {
      ghost var s := Value();
      if term.Some? {
        conds := conds[term.value := Cond([], Some(t))];
      }
      ghost var s1 := Value();
      StartThread(t, Thread(RUNNABLE, false, false, false, term, User));
      CreateByParts(s, t, term, s1, Value());
      return Returned(t);
    }

    /** A new thread is counted and may run. */
    method StartThread(t: Tid, x: Thread)
      requires Valid() && t !in thr && !x.onSleepQ
      modifies this`thr, this`node, this`active, this`runQ
      ensures Valid() && Value() == With(old(Value()), t, x).(active := old(active) + 1, runQ := old(runQ) + [t])
      ensures fresh(node.Values - old(node.Values))
    {
      NewRecord(t, x);
      active := active + 1;
      AddToRunQ(t);
    }

    /** A thread record is allocated. */
    method NewRecord(t: Tid, x: Thread)
      requires Valid() && t !in thr && !x.onSleepQ
      modifies this`thr, this`node
      ensures Valid() && Value() == With(old(Value()), t, x) && thr.Keys == old(thr.Keys) + {t}
      ensures fresh(node.Values - old(node.Values))
    {
      Unbind();
      var n := new H.Thread(t);
      LinkedNew(thr, node, sleep.slots, t, x, n);
      node := node[t := n];
      thr := thr[t := x];
      Bind(thr);
    }

    /** `st_thread_exit` up to its switch. */
    method StThreadExit() returns (r: Outcome)
      requires Valid() && (thr[cur].term.Some? ==> thr[cur].term.value in conds)
      requires thr[cur].term.Some? ==> forall t :: t in conds[thr[cur].term.value].waitQ ==> t in thr
      modifies this, sleep, node.Values
      ensures Valid() && Does(old(Value()), EvExit, Value(), r) && node == old(node)
    {
      ghost var s := Value();
      active := active - 1;
      if thr[cur].term.Some? {
        ghost var s1 := Value();
        BecomeZombie(thr[cur].term.value);
        ExitByParts(s, s1, Value());
      } else {
        ghost var s1 := Value();
        Vanish();
        GoneByParts(s, s1, Value());
      }
      return Switched;
    }

    /** Nobody can join the current thread: it gives way for good. */
    method Vanish()
      requires Valid()
      modifies this`thr, this`runQ, this`cur
      ensures Valid() && Leaves(old(Value()), Value())
    {
      ghost var s := Value();
      Put(cur, thr[cur].(pc := Dead));
      SwitchContext();
      LeavesByParts(s, Value());
    }

    /** The current thread goes on the zombie queue, signals its termination and gives
        way. */
    method BecomeZombie(cv: Cv)
      requires Valid() && cv in conds && forall t :: t in conds[cv].waitQ ==> t in thr
      modifies this`thr, this`runQ, this`cur, this`zombieQ, this`sleepers, sleep, node.Values
      ensures Valid() && Ends(old(Value()), cv, Value())
    {
      ghost var s := Value();
      zombieQ := zombieQ + [cur];
      GiveWay(ZOMBIE, InExit);
      ghost var s1 := Value();
      StCondSignal(cv, false);
      ghost var s2 := Value();
      SwitchContext();
      EndsByParts(s, cv, s1, s2, Value());
    }

    /** `st_thread_exit` after the thread was joined. */
    method ExitAfterSwitch() returns (r: Outcome)
      requires Valid()
      modifies this
      ensures Valid() && (Value(), r) == ExitResumed(old(Value())) && node == old(node)
    {
      var term := thr[cur].term;
      if term.Some? && (term.value in conds ==> conds[term.value].waitQ == []) {
        conds := conds - {term.value};
      }
      Put(cur, thr[cur].(term := None, pc := Dead));
      SwitchContext();
      return Switched;
    }

    /** `st_thread_join` up to its switch or its end. */
    method StThreadJoin(t: Tid) returns (r: Outcome)
      requires Valid() && (t in thr && thr[t].term.Some? ==> thr[t].term.value in conds)
      modifies this
      ensures Valid() && (Value(), r) == ThreadJoin(old(Value()), t) && node == old(node)
    {
      if t !in thr || thr[t].term.None? {
        return Failed(EINVAL);
      }
      if cur == t {
        return Failed(EDEADLK);
      }
      if conds[thr[t].term.value].waitQ != [] {
        return Failed(EINVAL);
      }
      r := WhileNotZombie(t, thr[t].term.value);
    }

    /** The loop of `st_thread_join`, up to the next switch or to its end. */
    method WhileNotZombie(t: Tid, cv: Cv) returns (r: Outcome)
      requires Valid() && cv in conds && t in thr
      modifies this
      ensures Valid() && (Value(), r) == JoinLoop(old(Value()), t, cv) && node == old(node)
    {
      if !thr[t].state.ZOMBIE? {
        var interrupted := Interrupted();
        if interrupted {
          return Failed(EINTR);
        }
        conds := conds[cv := conds[cv].(waitQ := conds[cv].waitQ + [cur])];
        SwitchAway(COND_WAIT, InJoin(t, cv, Waiting));
        return Switched;
      }
      zombieQ := Without(zombieQ, t);
      MakeItRunnable(t);
      return Returned(0);
    }

    /** `st_thread_join` after the switch. */
    method JoinAfterSwitch(t: Tid, cv: Cv) returns (r: Outcome)
      requires Valid() && cv in conds && t in thr
      modifies this
      ensures Valid() && (Value(), r) == JoinResumed(old(Value()), t, cv) && node == old(node)
    {
      r := CondAfterSwitch(cv);
      if !r.Failed? {
        r := WhileNotZombie(t, cv);
      }
    }

    /** `st_thread_interrupt`. */
    method StThreadInterrupt(t: Tid)
      requires Valid() && t in thr
      modifies this`thr, this`runQ, this`sleepers, sleep, node.Values
      ensures Valid() && Value() == ThreadInterrupt(old(Value()), t).0
    {
      if thr[t].state.ZOMBIE? {
        return;
      }
      if thr[t].state.RUNNING? || thr[t].state.RUNNABLE? {
        Put(t, thr[t].(interrupt := true));
      } else {
        Put(t, Noted(thr[t], ByInterrupt).(interrupt := true));
        WakeUp(t);
      }
    }

    // ------------------------------------------------------------- the idle loop

    /** The root of the heap, as far as a dispatch looks at it. */
    function RootOf(): (h: seq<Entry<Tid>>)
      reads sleep, sleep.sleepQ
    {
      if sleep.sleepQ == null then [] else [Entry(sleep.sleepQ.id, sleep.sleepQ.due)]
    }

    lemma RootIsRoot()
      requires Valid()
      ensures if sleep.sleepQ == null then sleepers == [] && RootOf() == []
        else sleepers != [] && RootOf() == [At(sleepers, 1)] && sleep.sleepQ in sleep.slots
    {
      assert Opened(Around, 0) && Opened(Within, 0);
      assert sleep.sleepQ == H.Slot(sleep.slots, 1);
    }

    /** What the event system gets to see of what is ready. */
    function AnswerTo(s: Vp, ready: PollSets.Ready): Answer {
      Answered(events.Which(), ready, s.sleepQ, s.lastClock)
    }

    /** The dispatch of whatever event system there is: each element with something to
        report leaves the io queue and its thread becomes runnable.  The wait in the
        kernel is the one for the whole heap. */
    method Dispatch(ready: PollSets.Ready, evts: seq<(int, set<Bit>)>) returns (wait: Option<nat>)
      requires Valid() && events.MayReturn(ready, evts)
      requires forall i :: 0 <= i < |events.requests| ==> events.requests[i].thread in thr
      modifies this`thr, this`runQ, this`sleepers, sleep, node.Values, events.parts
      ensures Valid() && Serves(old(Value()), AnswerTo(old(Value()), ready), Value())
      ensures wait == LongestWait(events.Which(), old(Value()).sleepQ, old(Value()).lastClock)
      ensures fresh(events.parts - old(events.parts)) && thr.Keys == old(thr.Keys) && node == old(node)
    {
      ghost var s, answer := Value(), AnswerTo(Value(), ready);
      WokenKnown(events.requests, answer, thr.Keys);
      var woken;
      woken, wait := AskEvents(ready, evts);
      WakeThreads(woken);
      ServesByParts(s, answer, Value());
    }

    /** `dispatch`, as far as the event system goes. */
    method AskEvents(ready: PollSets.Ready, evts: seq<(int, set<Bit>)>) returns (woken: seq<PollQ>, wait: Option<nat>)
      requires Valid() && events.MayReturn(ready, evts)
      modifies events.parts
      ensures Valid() && fresh(events.parts - old(events.parts))
      ensures var s := old(Value()); var answer := AnswerTo(s, ready);
        Value() == s.(ioQ := Kept(s.ioQ, answer)) && woken == Woken(s.ioQ, answer)
      ensures wait == LongestWait(events.Which(), sleepers, sleep.lastClock)
    {
      RootIsRoot();
      RootDecides(events.Which(), ready, RootOf(), sleepers, sleep.lastClock);
      assert Opened(Around, 0) && Opened(Within, 0);
      woken, wait := events.Dispatch(ready, evts, RootOf(), sleep.lastClock);
    }

    /** The threads of the woken elements become runnable, in their order. */
    method WakeThreads(woken: seq<PollQ>)
      requires Valid() && forall i :: 0 <= i < |woken| ==> woken[i].thread in thr
      modifies this`thr, this`runQ, this`sleepers, sleep, node.Values
      ensures Valid() && Value() == WakeAll(old(Value()), woken) && thr.Keys == old(thr.Keys) && node == old(node)
    {
      var i := 0;
      assert woken[0..] == woken;
      while i < |woken|
        invariant 0 <= i <= |woken| && Valid() && thr.Keys == old(thr.Keys) && node == old(node)
        invariant WakeAll(Value(), woken[i..]) == WakeAll(old(Value()), woken)
      {
        assert woken[i..][0] == woken[i] && woken[i..][1..] == woken[i + 1..];
        var t := woken[i].thread;
        Put(t, thr[t].(pc := InPoll(Some(woken[i].pds))));
        WakeUp(t);
        i := i + 1;
      }
    }

    /** The root of the heap belongs to a thread with the flag, and is at position 1. */
    lemma RootDeletes(t: Tid)
      requires Valid() && sleepers != [] && sleep.sleepQ != null && t == sleep.sleepQ.id && sleep.sleepQ in sleep.slots
      ensures t in thr && thr[t].onSleepQ && HeapWithout(sleepers, t) == Delete(sleepers, 1)
    {
      assert Opened(Around, 0) && Opened(Within, 0);
      var root := sleep.sleepQ;
      assert sleep.NodeLinked(sleep.slots, 1, 0);
      IndexIsPos(sleep, root);
    }

    /** The body of the loop of `_st_vp_check_clock`. */
    method ExpireRoot(now: int)
      requires Valid() && sleepers != []
      modifies this`thr, this`runQ, this`sleepers, sleep, node.Values
      ensures Valid() && Value() == Expire(old(Value()), now) && thr.Keys == old(thr.Keys) && node == old(node)
    {
      RootIsRoot();
      var t, due := sleep.sleepQ.id, sleep.sleepQ.due;
      RootDeletes(t);
      ExpireByParts(Value(), now);
      var waits := thr[t].state.COND_WAIT?;
      DeleteFromSleepQ(t);
      Put(t, Noted(thr[t], ByTimeout(due, now)).(timedOut := thr[t].timedOut || waits));
      MakeItRunnable(t);
    }

    /** `_st_vp_check_clock`. */
    method CheckTheClock(now: int)
      requires Valid()
      modifies this`thr, this`runQ, this`sleepers, sleep, node.Values
      ensures Valid() && Checks(old(Value()), now, Value()) && thr.Keys == old(thr.Keys) && node == old(node)
    {
      SetClock(now);
      RootIsRoot();
      while sleep.sleepQ != null && sleep.sleepQ.due <= now
        invariant Valid() && thr.Keys == old(thr.Keys) && node == old(node)
        invariant ExpireAll(Value(), now) == CheckClock(old(Value()), now)
        decreases |sleepers|
      {
        RootIsRoot();
        ExpireRoot(now);
      }
      RootIsRoot();
    }

    method SetClock(now: int)
      requires Valid()
      modifies sleep`lastClock
      ensures Valid() && Value() == old(Value()).(lastClock := now)
    {
      assert Opened(Around, 0) && Opened(Within, 0);
      sleep.lastClock := now;
    }

    /** One turn of the loop of `_st_idle_thread_start`. */
    method IdleLoopTurn(ready: PollSets.Ready, evts: seq<(int, set<Bit>)>, now: int) returns (wait: Option<nat>)
      requires Valid() && events.MayReturn(ready, evts)
      requires forall i :: 0 <= i < |events.requests| ==> events.requests[i].thread in thr
      modifies this, sleep, node.Values, events.parts
      ensures Valid() && Turns(old(Value()), AnswerTo(old(Value()), ready), now, Value())
      ensures wait == LongestWait(events.Which(), old(Value()).sleepQ, old(Value()).lastClock)
      ensures fresh(events.parts - old(events.parts)) && node == old(node)
    {
      ghost var s := Value();
      wait := Dispatch(ready, evts);
      ghost var s1 := Value();
      CheckTheClock(now);
      ghost var s2 := Value();
      SwitchAway(RUNNABLE, InIdle);
      TurnByParts(s, s1, s2, Value(), AnswerTo(s, ready), now);
    }

    /** The current thread goes on after the context switch that it was stopped at. */
    method Continue() returns (r: Outcome)
      requires Valid() && Sane(Value())
      modifies this, events.parts
      ensures Valid() && (Value(), r) == Resume(old(Value()))
      ensures fresh(events.parts - old(events.parts)) && node == old(node)
    {
      ResumeKnown(Value());
      match thr[cur].pc
      case InPoll(fired) => r := PollAfterSwitch(fired);
      case InSleep => r := SleepAfterSwitch();
      case InCondWait(cv, _) => r := CondAfterSwitch(cv);
      case InJoin(t, cv, _) => r := JoinAfterSwitch(t, cv);
      case InLock(m) => r := LockAfterSwitch(m);
      case InExit => r := ExitAfterSwitch();
      case _ => r := Returned(0);
    }

    /** A sleep, or a wait on a condition variable. */
    method PerformWait(e: Event) returns (r: Outcome)
      requires Valid() && Sane(Value()) && MayDo(Value(), e) && (e.EvSleep? || e.EvWait?)
      modifies this, sleep, node.Values
      ensures Valid() && Does(old(Value()), e, Value(), r) && node == old(node)
    {
      ghost var s := Value();
      CallerKnown(s, e);
      match e {
        case EvSleep(timeout) =>
          r := StUSleep(timeout);
        case EvWait(cv, timeout) =>
          CondKnown(s, e);
          r := StCondTimedWait(cv, timeout);
      }
      DoIsDoes(s, e, Value(), r);
    }

    /** Any other call on condition variables. */
    method PerformCond(e: Event) returns (r: Outcome)
      requires Valid() && Sane(Value()) && MayDo(Value(), e) && (e.EvSignal? || e.EvCondNew? || e.EvCondDestroy?)
      modifies this, sleep, node.Values
      ensures Valid() && Does(old(Value()), e, Value(), r) && node == old(node)
    {
      ghost var s := Value();
      match e {
        case EvSignal(cv, broadcast) =>
          CondKnown(s, e);
          StCondSignal(cv, broadcast);
          r := Returned(0);
        case EvCondNew(cv) =>
          r := StCondNew(cv);
        case EvCondDestroy(cv) =>
          CondKnown(s, e);
          r := StCondDestroy(cv);
      }
      DoIsDoes(s, e, Value(), r);
    }

    /** A call on mutexes. */
    method PerformMutex(e: Event) returns (r: Outcome)
      requires Valid() && Sane(Value()) && MayDo(Value(), e)
      requires e.EvMutexNew? || e.EvMutexDestroy? || e.EvLock? || e.EvTryLock? || e.EvUnlock?
      modifies this
      ensures Valid() && Does(old(Value()), e, Value(), r) && node == old(node)
    {
      ghost var s := Value();
      if !e.EvMutexNew? {
        MutexKnown(s, e);
      }
      match e {
        case EvMutexNew(m) => r := StMutexNew(m);
        case EvMutexDestroy(m) => r := StMutexDestroy(m);
        case EvLock(m) => r := StMutexLock(m);
        case EvTryLock(m) => r := StMutexTryLock(m);
        case EvUnlock(m) => r := StMutexUnlock(m);
      }
      DoIsDoes(s, e, Value(), r);
    }

    /** A call on threads. */
    method PerformThread(e: Event) returns (r: Outcome)
      requires Valid() && Sane(Value()) && MayDo(Value(), e)
      requires e.EvCreate? || e.EvExit? || e.EvJoin? || e.EvInterrupt?
      modifies this, sleep, node.Values
      ensures Valid() && Does(old(Value()), e, Value(), r) && fresh(node.Values - old(node.Values))
    {
      ghost var s := Value();
      ThreadKnown(s, e);
      if e.EvExit? && Me(s).term.Some? {
        ExitKnown(s);
      }
      match e {
        case EvCreate(t, term) =>
          r := StThreadCreate(t, term);
        case EvExit =>
          r := StThreadExit();
        case EvJoin(t) =>
          r := StThreadJoin(t);
          DoIsDoes(s, e, Value(), r);
        case EvInterrupt(t) =>
          StThreadInterrupt(t);
          r := Returned(0);
          DoIsDoes(s, e, Value(), r);
      }
    }

    /** A poll, the rest of a call that switched, or a turn of the idle thread. */
    method PerformIo(e: Event, refused: set<int>, evts: seq<(int, set<Bit>)>) returns (r: Outcome, wait: Option<nat>)
      requires Valid() && Sane(Value()) && MayDo(Value(), e) && (e.EvPoll? || e.EvResume? || e.EvIdle?)
      requires e.EvIdle? ==> events.MayReturn(e.answer.ready, evts)
      modifies this, sleep, node.Values, events.parts
      ensures Valid() && Does(old(Value()), Settled(events.Which(), old(Value()), e, refused), Value(), r)
      ensures e.EvIdle? ==> wait == LongestWait(events.Which(), old(Value()).sleepQ, old(Value()).lastClock)
      ensures fresh(events.parts - old(events.parts)) && node == old(node)
    {
      ghost var s := Value();
      CallerKnown(s, e);
      IoKnown(s);
      wait := None;
      match e {
        case EvPoll(pds, _, timeout) =>
          r := StPoll(pds, timeout, refused);
          DoIsDoes(s, Settled(events.Which(), s, e, refused), Value(), r);
        case EvResume =>
          r := Continue();
          DoIsDoes(s, e, Value(), r);
        case EvIdle(answer, now) =>
          wait := IdleLoopTurn(answer.ready, evts, now);
          r := Switched;
          TurnIsDoes(s, AnswerTo(s, answer.ready), now, Value());
      }
    }

    /** Whatever happens next, on real heap links and on any of the three event systems,
        is a step of the specification: every run of the library is one of its runs, and
        keeps its invariant.  Whether a poll is accepted and what a dispatch gets to see
        is settled by the event system, and the wait of an idle turn is the one for the
        whole heap. */
    method Perform(e: Event, refused: set<int>, evts: seq<(int, set<Bit>)>) returns (r: Outcome, wait: Option<nat>)
      requires Valid() && Sane(Value()) && Enabled(Value(), e)
      requires e.EvIdle? ==> events.MayReturn(e.answer.ready, evts)
      modifies this, sleep, node.Values, events.parts
      ensures Valid() && Sane(Value()) && (Value(), r) == Do(old(Value()), Settled(events.Which(), old(Value()), e, refused))
      ensures e.EvIdle? ==> wait == LongestWait(events.Which(), old(Value()).sleepQ, old(Value()).lastClock)
      ensures fresh(events.parts - old(events.parts)) && fresh(node.Values - old(node.Values))
    {
      ghost var s := Value();
      SettledMayDo(s, e, events.Which(), refused);
      wait := None;
      if e.EvPoll? || e.EvResume? || e.EvIdle? {
        r, wait := PerformIo(e, refused, evts);
      } else if e.EvSleep? || e.EvWait? {
        r := PerformWait(e);
      } else if e.EvCreate? || e.EvExit? || e.EvJoin? || e.EvInterrupt? {
        r := PerformThread(e);
      } else if e.EvSignal? || e.EvCondNew? || e.EvCondDestroy? {
        r := PerformCond(e);
      } else {
        r := PerformMutex(e);
      }
      DoesIsDo(s, Settled(events.Which(), s, e, refused), Value(), r);
    }

    /** A whole run: one call after the other, with whatever the kernel answers. */
    method PerformAll(calls: seq<(Event, set<int>)>) returns (rs: seq<Outcome>)
      requires Valid() && Sane(Value()) && MayDoAll(events.Which(), Value(), calls)
      modifies this, sleep, node.Values, events.parts
      ensures Valid() && Sane(Value()) && DoesAll(events.Which(), old(Value()), calls, Value(), rs)
      decreases |calls|
    {
      ghost var s := Value();
      if calls == [] {
        NothingDone(events.Which(), s);
        return [];
      }
      FirstMayBeDone(events.Which(), s, calls);
      var e, evts := calls[0].0, [];
      if e.EvIdle? {
        evts := events.KernelWait(e.answer.ready);
      }
      var r, wait := Perform(e, calls[0].1, evts);
      rs := PerformAll(calls[1..]);
      FirstThenRest(events.Which(), s, calls, Value(), r, rs);
      rs := [r] + rs;
    }
  }
}
