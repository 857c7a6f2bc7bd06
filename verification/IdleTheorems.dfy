/** What a turn of the idle thread does: who finds which reports, who is woken by the
    clock, and who runs next. */
module IdleTheorems {
  import opened HeapLayout
  import opened PollSets
  import opened SeqFacts
  import opened Timeouts
  import opened Scheduler
  import opened SchedulerInvariant
  import opened SchedulerSteps
  import opened SchedulerRuns
  import opened SchedulerTheorems
  import opened CondTheorems
  import opened SleepTheorems
  import opened DispatchTheorems
  import opened CallTheorems

  // ------------------------------------------------------------------ reports

  /** The threads of the elements `w` find their reports, and are runnable at the tail of
      the run queue in this order and out of the heap; nobody else is touched. */
  ghost predicate Reports(s: Vp, s': Vp, w: seq<PollQ>) {
    && s'.runQ == s.runQ + Pollers(w) && OutOfHeap(s.sleepQ, s'.sleepQ, Pollers(w))
    && (forall k :: 0 <= k < |w| ==> ReportedTo(s, s', w[k]))
    && (forall t: Tid :: t !in Pollers(w) ==> Get(s', t) == Get(s, t))
    && s' == s.(thr := s'.thr, runQ := s'.runQ, sleepQ := s'.sleepQ)
  }

  ghost predicate ReportedTo(s: Vp, s': Vp, pq: PollQ) {
    Get(s', pq.thread) == Get(s, pq.thread).(state := RUNNABLE, onSleepQ := false, pc := InPoll(Some(pq.pds)))
  }

  lemma OneReported(s: Vp, pq: PollQ)
    requires SleepQOk(s)
    ensures Reports(s, WakeOne(s, pq), [pq]) && SleepQOk(WakeOne(s, pq))
  {
    var t := pq.thread;
    WakeLeavesHeap(s, t);
    WokenRecord(s, t, Get(s, t).(pc := InPoll(Some(pq.pds))));
    assert Pollers([pq]) == [t];
    HeapLosesOne(s, WakeOne(s, pq), t);
  }

  lemma ReportsJoin(s: Vp, s1: Vp, s2: Vp, pq: PollQ, w: seq<PollQ>)
    requires Reports(s, s1, [pq]) && Reports(s1, s2, w) && pq.thread !in Pollers(w)
    ensures Reports(s, s2, [pq] + w)
  {
    var all := [pq] + w;
    assert Pollers([pq]) == [pq.thread];
    PollersPrepended(pq, w);
    Associates(s.runQ, [pq.thread], Pollers(w));
    forall k | 0 <= k < |all| ensures ReportedTo(s, s2, all[k]) {
      if k == 0 {
        assert ReportedTo(s, s1, [pq][0]);
      } else {
        assert ReportedTo(s1, s2, w[k - 1]);
        assert Pollers(w)[k - 1] == w[k - 1].thread != pq.thread;
      }
    }
  }

  lemma {:induction false} AllReported(s: Vp, w: seq<PollQ>)
    requires SleepQOk(s) && Distinct(Pollers(w))
    ensures Reports(s, WakeAll(s, w), w) && SleepQOk(WakeAll(s, w))
    decreases |w|
  {
    if w != [] {
      var s1 := WakeOne(s, w[0]);
      OneReported(s, w[0]);
      assert Pollers(w[1..]) == Pollers(w)[1..];
      AllReported(s1, w[1..]);
      FirstIsNew(Pollers(w));
      ReportsJoin(s, s1, WakeAll(s, w), w[0], w[1..]);
      assert w == [w[0]] + w[1..];
    }
  }

  lemma FirstIsNew(q: seq<Tid>)
    requires q != [] && Distinct(q)
    ensures q[0] !in q[1..] && Distinct(q[1..])
  {
  }

  /** The elements that are woken are of different threads, since those on the queue are. */
  lemma {:induction false} WokenAreDistinct(q: seq<PollQ>, answer: Answer)
    requires Distinct(Pollers(q))
    ensures Distinct(Pollers(Woken(q, answer)))
    ensures forall t :: t in Pollers(Woken(q, answer)) ==> t in Pollers(q)
  {
    if q != [] {
      assert Pollers(q[1..]) == Pollers(q)[1..];
      FirstIsNew(Pollers(q));
      assert forall t :: t in Pollers(q) <==> t == Pollers(q)[0] || t in Pollers(q)[1..];
      WokenAreDistinct(q[1..], answer);
      var pds, w := FireAll(q[0].pds, answer), Woken(q[1..], answer);
      if Notified(pds) {
        PollersPrepended(q[0].(pds := pds), w);
        HeadIsDistinct(q[0].thread, Pollers(w));
      }
    }
  }

  lemma HeadIsDistinct(t: Tid, q: seq<Tid>)
    requires Distinct(q) && t !in q
    ensures Distinct([t] + q)
  {
  }

  lemma PollersDistinct(s: Vp)
    requires IoQOk(s)
    ensures Distinct(Pollers(s.ioQ))
  {
    PollersAreDistinct(s);
  }

  lemma DispatchReports(s: Vp, answer: Answer)
    requires Agrees(s, Some(s.cur))
    ensures var s1, w := ServeIo(s, 0, answer), Woken(s.ioQ, answer);
      Reports(s.(ioQ := Kept(s.ioQ, answer)), s1, w) && SleepQOk(s1)
  {
    PollersDistinct(s);
    WokenAreDistinct(s.ioQ, answer);
    ServeAll(s, answer);
    AllReported(s.(ioQ := Kept(s.ioQ, answer)), Woken(s.ioQ, answer));
  }

  // --------------------------------------------------------------------- clock

  /** The record of a thread whose deadline has passed. */
  function Overdue(x: Thread, due: int, now: int): Thread {
    Roused(x, ByTimeout(due, now)).(timedOut := x.timedOut || x.state.COND_WAIT?)
  }

  /** The threads of the entries `late` are woken because they are due; nobody else is
      touched. */
  ghost predicate Expires(s: Vp, s': Vp, late: seq<Entry<Tid>>, now: int) {
    && s'.runQ == s.runQ + Whos(late)
    && (forall e :: e in late ==> Get(s', e.who) == Overdue(Get(s, e.who), e.due, now))
    && (forall t: Tid :: t !in Whos(late) ==> Get(s', t) == Get(s, t))
    && s' == s.(thr := s'.thr, runQ := s'.runQ, sleepQ := s'.sleepQ)
  }

  /** Who is in the heap waits. */
  ghost predicate HeapWaits(s: Vp) {
    forall e :: e in s.sleepQ ==> Get(s, e.who).onSleepQ && Coherent(Get(s, e.who))
  }

  lemma RootExpires(s: Vp, now: int)
    requires SleepQOk(s) && HeapWaits(s) && s.sleepQ != []
    ensures var root, s1 := At(s.sleepQ, 1), Expire(s, now);
      && Expires(s, s1, [root], now) && SleepQOk(s1) && HeapWaits(s1)
      && OutOfHeap(s.sleepQ, s1.sleepQ, [root.who])
  {
    var h, root, s1 := s.sleepQ, At(s.sleepQ, 1), Expire(s, now);
    assert root in h;
    assert Whos(h)[0] == root.who;
    PosIsUnique(h, 1);
    WakeLeavesHeap(s, root.who);
    assert Whos([root]) == [root.who];
    ExpireRecord(s, now);
    HeapLosesOne(s, s1, root.who);
  }

  lemma ExpireRecord(s: Vp, now: int)
    requires s.sleepQ != [] && Coherent(Get(s, At(s.sleepQ, 1).who)) && Get(s, At(s.sleepQ, 1).who).onSleepQ
    ensures var root, s1 := At(s.sleepQ, 1), Expire(s, now);
      && s1.thr == s.thr[root.who := Overdue(Get(s, root.who), root.due, now)]
      && s1 == s.(thr := s1.thr, runQ := s.runQ + [root.who], sleepQ := Delete(s.sleepQ, 1))
  {
  }

  lemma ExpiresBoth(s: Vp, s1: Vp, s2: Vp, root: Entry<Tid>, late: seq<Entry<Tid>>, now: int)
    requires Expires(s, s1, [root], now) && Expires(s1, s2, late, now) && root.who !in Whos(late)
    ensures Expires(s, s2, [root] + late, now)
  {
    var all := [root] + late;
    WhosOfConcat([root], late);
    assert Whos([root]) == [root.who];
    Associates(s.runQ, [root.who], Whos(late));
    forall e | e in all ensures Get(s2, e.who) == Overdue(Get(s, e.who), e.due, now) {
      if e in late {
        InWhos(late, e);
      } else {
        assert e in [root];
      }
    }
  }

  lemma InWhos(es: seq<Entry<Tid>>, e: Entry<Tid>)
    requires e in es
    ensures e.who in Whos(es)
  {
    var i :| 0 <= i < |es| && es[i] == e;
    assert Whos(es)[i] == e.who;
  }

  /** The entries that are popped are entries of the heap. */
  lemma PoppedAreThere(h: seq<Entry<Tid>>, now: int)
    requires HeapOrdered(h)
    ensures forall e :: e in PopDue(h, now).0 <==> e in h && e.due <= now
    ensures forall e :: e in PopDue(h, now).1 <==> e in h && now < e.due
  {
    PopDueIsExact(h, now);
    var (popped, rest) := PopDue(h, now);
    forall e ensures e in h <==> e in popped || e in rest {
      assert e in h <==> e in multiset(h);
    }
  }

  lemma {:induction false} ExpiryIsExact(s: Vp, now: int)
    requires SleepQOk(s) && HeapWaits(s)
    ensures Expires(s, ExpireAll(s, now), PopDue(s.sleepQ, now).0, now)
    decreases |s.sleepQ|
  {
    if s.sleepQ != [] && At(s.sleepQ, 1).due <= now {
      var root, s1 := At(s.sleepQ, 1), Expire(s, now);
      var late := PopDue(s1.sleepQ, now).0;
      RootExpires(s, now);
      ExpiryIsExact(s1, now);
      PoppedAreThere(s1.sleepQ, now);
      assert root.who !in Whos(late) by {
        RootIsGone(s.sleepQ, s1.sleepQ, late, root.who);
      }
      ExpiresBoth(s, s1, ExpireAll(s1, now), root, late, now);
    }
  }

  lemma RootIsGone(h: seq<Entry<Tid>>, h': seq<Entry<Tid>>, late: seq<Entry<Tid>>, t: Tid)
    requires OutOfHeap(h, h', [t]) && forall e :: e in late ==> e in h'
    ensures t !in Whos(late)
  {
    forall i | 0 <= i < |late| ensures Whos(late)[i] != t {
      assert late[i] in late;
    }
  }

  // ---------------------------------------------------------------- the whole turn

  /** The record of `t` is `x`, but that it runs if it was switched in. */
  ghost predicate Has(s': Vp, t: Tid, x: Thread) {
    Get(s', t) == if t == s'.cur then x.(state := RUNNING) else x
  }

  /** The idle thread's turn: the threads of `w` find their reports and those of `late`
      that they are late, and may run in this order; the idle thread waits for its own
      turn; nobody else is touched. */
  ghost predicate TurnIs(s: Vp, s': Vp, w: seq<PollQ>, late: seq<Entry<Tid>>, now: int) {
    var q := Pollers(w) + Whos(late);
    && (if q == [] then s'.cur == s.idle && s'.runQ == [] else s'.cur == q[0] && s'.runQ == q[1..])
    && (forall k :: 0 <= k < |w| ==>
          Has(s', w[k].thread, Get(s, w[k].thread).(state := RUNNABLE, onSleepQ := false, pc := InPoll(Some(w[k].pds)))))
    && (forall e :: e in late ==> Has(s', e.who, Overdue(Get(s, e.who), e.due, now)))
    && Has(s', s.cur, Me(s).(state := RUNNABLE))
    && (forall t: Tid :: t != s.cur && t !in Pollers(w) && t !in Whos(late) ==> Get(s', t) == Get(s, t))
    && s' == s.(thr := s'.thr, cur := s'.cur, runQ := s'.runQ, ioQ := s'.ioQ, sleepQ := s'.sleepQ, lastClock := s'.lastClock)
  }

  /** Who is left in the heap after the dispatch still waits. */
  lemma ReportedHeap(s: Vp, s1: Vp, w: seq<PollQ>)
    requires Agrees(s, Some(s.cur)) && Reports(s.(ioQ := s1.ioQ), s1, w)
    ensures HeapWaits(s1)
  {
    forall e | e in s1.sleepQ ensures Get(s1, e.who).onSleepQ && Coherent(Get(s1, e.who)) {
      InHeap(s, e.who, e.due);
      assert Get(s1, e.who) == Get(s, e.who);
    }
  }

  /** The idle thread is neither reported to nor late. */
  lemma IdleIsAside(s: Vp, answer: Answer)
    requires Inv(s) && Me(s).pc.InIdle?
    ensures s.cur == s.idle && s.runQ == [] && s.cur !in Pollers(Woken(s.ioQ, answer)) && !Me(s).onSleepQ
  {
    assert Coherent(Me(s));
    PollersDistinct(s);
    WokenAreDistinct(s.ioQ, answer);
    NotPolling(s, s.cur);
    forall i | 0 <= i < |Pollers(s.ioQ)| ensures Pollers(s.ioQ)[i] != s.cur {
      assert Pollers(s.ioQ)[i] == s.ioQ[i].thread;
    }
  }

  /** The records when the idle thread is about to give way. */
  ghost predicate TurnRecords(s: Vp, b: Vp, w: seq<PollQ>, late: seq<Entry<Tid>>, now: int) {
    && (forall k :: 0 <= k < |w| ==> ReportedTo(s, b, w[k]))
    && (forall e :: e in late ==> Get(b, e.who) == Overdue(Get(s, e.who), e.due, now))
    && (forall t: Tid :: t !in Pollers(w) && t !in Whos(late) ==> Get(b, t) == Get(s, t))
  }

  lemma TurnByParts(s: Vp, s3: Vp, w: seq<PollQ>, late: seq<Entry<Tid>>, now: int)
    requires TurnRecords(s, s3, w, late, now) && s3.runQ == Pollers(w) + Whos(late)
    requires s3 == s.(thr := s3.thr, runQ := s3.runQ, ioQ := s3.ioQ, sleepQ := s3.sleepQ, lastClock := s3.lastClock)
    requires s.cur == s.idle && Me(s).pc.InIdle? && s.cur !in Pollers(w) && s.cur !in Whos(late)
    ensures TurnIs(s, Schedule(Block(s3, RUNNABLE, InIdle)), w, late, now)
  {
    var b := Block(s3, RUNNABLE, InIdle);
    var s' := Schedule(b);
    SwitchRunsNext(b);
    forall k | 0 <= k < |w|
      ensures Has(s', w[k].thread, Get(s, w[k].thread).(state := RUNNABLE, onSleepQ := false, pc := InPoll(Some(w[k].pds))))
    {
      assert ReportedTo(s, s3, w[k]) && Pollers(w)[k] in Pollers(w);
    }
    forall e | e in late ensures Has(s', e.who, Overdue(Get(s, e.who), e.due, now)) {
      InWhos(late, e);
    }
  }

  lemma LateAside(late: seq<Entry<Tid>>, p: seq<Tid>, t: Tid)
    requires forall e :: e in late ==> e.who !in p && e.who != t
    ensures t !in Whos(late) && forall u :: u in p ==> u !in Whos(late)
    ensures forall e :: e in late ==> e.who in Whos(late)
  {
    forall i | 0 <= i < |late| ensures Whos(late)[i] !in p && Whos(late)[i] != t {
      assert late[i] in late;
    }
    forall e | e in late ensures e.who in Whos(late) {
      InWhos(late, e);
    }
  }

  /** What is left in the heap by the dispatch, and what of it is due. */
  lemma ClockSplits(s: Vp, s1: Vp, w: seq<PollQ>, now: int) returns (late: seq<Entry<Tid>>)
    requires Agrees(s, Some(s.cur)) && Reports(s.(ioQ := s1.ioQ), s1, w) && SleepQOk(s1)
    ensures Expires(s1.(lastClock := now), CheckClock(s1, now), late, now) && SortedByDue(late)
    ensures forall e :: e in late <==> e in s.sleepQ && e.who !in Pollers(w) && e.due <= now
    ensures forall e :: e in CheckClock(s1, now).sleepQ <==> e in s.sleepQ && e.who !in Pollers(w) && now < e.due
  {
    var s2 := s1.(lastClock := now);
    late := PopDue(s1.sleepQ, now).0;
    ReportedHeap(s, s1, w);
    ExpiryIsExact(s2, now);
    ExpireAllMoves(s2, now);
    PopDueIsExact(s1.sleepQ, now);
    PoppedAreThere(s1.sleepQ, now);
  }

  /** The heap `h`, split into what is due and what stays, without what was reported to. */
  ghost predicate SplitAt(h: seq<Entry<Tid>>, w: seq<PollQ>, now: int, late: seq<Entry<Tid>>, h': seq<Entry<Tid>>) {
    && SortedByDue(late) && (forall e :: e in late <==> e in h && e.who !in Pollers(w) && e.due <= now)
    && (forall e :: e in h' <==> e in h && e.who !in Pollers(w) && now < e.due)
  }

  ghost predicate BeforeSwitch(s: Vp, s3: Vp, w: seq<PollQ>, late: seq<Entry<Tid>>, ioQ: seq<PollQ>, now: int) {
    && s.cur == s.idle && s.cur !in Pollers(w) && s.cur !in Whos(late)
    && TurnRecords(s, s3, w, late, now) && s3.runQ == Pollers(w) + Whos(late)
    && s3 == s.(thr := s3.thr, runQ := s3.runQ, ioQ := ioQ, sleepQ := s3.sleepQ, lastClock := now)
  }

  lemma RecordsByParts(s: Vp, s1: Vp, s3: Vp, w: seq<PollQ>, late: seq<Entry<Tid>>, now: int)
    requires Reports(s.(ioQ := s1.ioQ), s1, w) && Expires(s1.(lastClock := now), s3, late, now)
    requires forall e :: e in late ==> e.who !in Pollers(w) && e.who != s.cur
    requires s.cur == s.idle && s.runQ == [] && s.cur !in Pollers(w)
    ensures BeforeSwitch(s, s3, w, late, s1.ioQ, now)
  {
    assert [] + Pollers(w) == Pollers(w);
    LateAside(late, Pollers(w), s.cur);
    forall k | 0 <= k < |w| ensures ReportedTo(s, s3, w[k]) {
      assert ReportedTo(s.(ioQ := s1.ioQ), s1, w[k]);
      assert Pollers(w)[k] in Pollers(w);
    }
  }

  lemma LateAreOthers(s: Vp, late: seq<Entry<Tid>>)
    requires SleepQOk(s) && !Me(s).onSleepQ && forall e :: e in late ==> e in s.sleepQ
    ensures forall e :: e in late ==> e.who != s.cur
  {
    forall e | e in late ensures e.who != s.cur {
      InHeap(s, e.who, e.due);
    }
  }

  lemma TurnParts(s: Vp, s1: Vp, w: seq<PollQ>, now: int) returns (late: seq<Entry<Tid>>, s3: Vp)
    requires Agrees(s, Some(s.cur)) && SleepQOk(s1) && Reports(s.(ioQ := s1.ioQ), s1, w)
    requires s.cur == s.idle && s.runQ == [] && s.cur !in Pollers(w) && !Me(s).onSleepQ
    ensures s3 == CheckClock(s1, now)
    ensures SplitAt(s.sleepQ, w, now, late, s3.sleepQ) && BeforeSwitch(s, s3, w, late, s1.ioQ, now)
  {
    s3 := CheckClock(s1, now);
    late := ClockSplits(s, s1, w, now);
    LateAreOthers(s, late);
    RecordsByParts(s, s1, s3, w, late, now);
  }

  lemma DispatchHalf(s: Vp, answer: Answer) returns (s1: Vp, w: seq<PollQ>)
    requires Inv(s) && Me(s).pc.InIdle?
    ensures s1 == ServeIo(s, 0, answer) && w == Woken(s.ioQ, answer) && s1.ioQ == Kept(s.ioQ, answer)
    ensures Agrees(s, Some(s.cur)) && SleepQOk(s1) && Reports(s.(ioQ := s1.ioQ), s1, w)
    ensures s.cur == s.idle && s.runQ == [] && s.cur !in Pollers(w) && !Me(s).onSleepQ
  {
    s1, w := ServeIo(s, 0, answer), Woken(s.ioQ, answer);
    DispatchReports(s, answer);
    IdleIsAside(s, answer);
  }

  lemma TurnIsSwitch(s: Vp, answer: Answer, now: int, s1: Vp, s3: Vp)
    requires s1 == ServeIo(s, 0, answer) && s3 == CheckClock(s1, now)
    ensures Do(s, EvIdle(answer, now)) == (Schedule(Block(s3, RUNNABLE, InIdle)), Switched)
  {
  }

  /** A turn of the idle thread stores the clock reading `now`.  Whoever has something to
      report leaves the io queue, whoever is due leaves the heap, and nobody else does. */
  lemma IdleCall(s: Vp, answer: Answer, now: int) returns (s': Vp, late: seq<Entry<Tid>>)
    requires Inv(s) && Me(s).pc.InIdle?
    ensures Do(s, EvIdle(answer, now)) == (s', Switched)
    ensures s'.lastClock == now && s'.ioQ == Kept(s.ioQ, answer)
    ensures var w := Woken(s.ioQ, answer);
      SplitAt(s.sleepQ, w, now, late, s'.sleepQ) && TurnIs(s, s', w, late, now)
  {
    var s1, w := DispatchHalf(s, answer);
    var s3;
    late, s3 := TurnParts(s, s1, w, now);
    s' := Schedule(Block(s3, RUNNABLE, InIdle));
    TurnByParts(s, s3, w, late, now);
    TurnIsSwitch(s, answer, now, s1, s3);
  }
}
