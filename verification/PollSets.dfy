/** Poll descriptors, io-queue elements and what a dispatch of any backend of
    state-threads/event.c has to do with them.  Event masks are sets of bits. */
module PollSets {
  import opened SeqFacts

  datatype Bit = IN | OUT | PRI | ERR | HUP | NVAL

  /** POLLIN | POLLOUT | POLLPRI. */
  const IO_BITS: set<Bit> := {IN, OUT, PRI}

  datatype PollFd = PollFd(fd: int, events: set<Bit>, revents: set<Bit>)

  /** `_st_pollq_t`: the descriptors that `thread` waits for. */
  datatype PollQ = PollQ(thread: int, pds: seq<PollFd>)

  /** What the kernel finds ready on each descriptor. */
  type Ready = map<int, set<Bit>>

  function ReadyOn(ready: Ready, fd: int): set<Bit> {
    if fd in ready then ready[fd] else {}
  }

  /** The kernel reports no error conditions. */
  ghost predicate ErrorFree(ready: Ready) {
    forall fd :: fd in ready ==> ready[fd] <= IO_BITS
  }

  /** What the kernel finds, as it is put to one of the three event systems. */
  datatype Answer = BySelect(ready: Ready) | ByPoll(ready: Ready) | ByEpoll(ready: Ready)

  /** What the event system makes of it for one descriptor.  `poll` reports errors
      unasked; after an epoll error everything that was asked for is reported too. */
  function Revents(pd: PollFd, answer: Answer): set<Bit> {
    var r := ReadyOn(answer.ready, pd.fd);
    match answer
    case BySelect(_) => pd.events * r
    case ByPoll(_) => pd.events * r + {ERR, HUP, NVAL} * r
    case ByEpoll(_) => if {ERR, HUP} * r != {} then pd.events + {ERR, HUP} * r else pd.events * r
  }

  // ------------------------------------------------------------------ dispatch

  function Fire(pd: PollFd, answer: Answer): PollFd {
    pd.(revents := Revents(pd, answer))
  }

  function FireAll(pds: seq<PollFd>, answer: Answer): (r: seq<PollFd>)
    ensures |r| == |pds| && forall i :: 0 <= i < |pds| ==> r[i] == Fire(pds[i], answer)
  {
    seq(|pds|, i requires 0 <= i < |pds| => Fire(pds[i], answer))
  }

  /** Some descriptor has something to report. */
  predicate Notified(pds: seq<PollFd>) {
    exists i :: 0 <= i < |pds| && pds[i].revents != {}
  }

  /** The same requests, with nothing reported. */
  function Strip(pds: seq<PollFd>): (r: seq<PollFd>)
    ensures |r| == |pds| && forall i :: 0 <= i < |pds| ==> r[i] == pds[i].(revents := {})
  {
    seq(|pds|, i requires 0 <= i < |pds| => pds[i].(revents := {}))
  }

  function StripQ(q: seq<PollQ>): (r: seq<PollQ>)
    ensures |r| == |q| && forall i :: 0 <= i < |q| ==> r[i] == q[i].(pds := Strip(q[i].pds))
  {
    seq(|q|, i requires 0 <= i < |q| => q[i].(pds := Strip(q[i].pds)))
  }

  /** The elements that a dispatch takes off the io queue, in queue order, with
      what it reports to their threads. */
  function Woken(q: seq<PollQ>, answer: Answer): seq<PollQ> {
    if q == [] then []
    else
      var pds := FireAll(q[0].pds, answer);
      (if Notified(pds) then [q[0].(pds := pds)] else []) + Woken(q[1..], answer)
  }

  /** The elements that a dispatch leaves on the io queue (their requests). */
  function Kept(q: seq<PollQ>, answer: Answer): seq<PollQ> {
    if q == [] then []
    else
      (if Notified(FireAll(q[0].pds, answer)) then [] else [q[0].(pds := Strip(q[0].pds))]) + Kept(q[1..], answer)
  }

  /** A dispatch depends on the requests only, not on what was reported before. */
  lemma {:induction false} DispatchIgnoresReports(q1: seq<PollQ>, q2: seq<PollQ>, answer: Answer)
    requires StripQ(q1) == StripQ(q2)
    ensures Woken(q1, answer) == Woken(q2, answer) && Kept(q1, answer) == Kept(q2, answer)
    decreases |q1|
  {
    assert |q1| == |StripQ(q1)| == |StripQ(q2)| == |q2|;
    if q1 != [] {
      assert StripQ(q1)[0] == StripQ(q2)[0];
      assert StripQ(q1[1..]) == StripQ(q1)[1..] == StripQ(q2[1..]);
      var a, b := q1[0].pds, q2[0].pds;
      assert |a| == |Strip(a)| == |Strip(b)| == |b|;
      forall i | 0 <= i < |a| ensures Fire(a[i], answer) == Fire(b[i], answer) {
        assert Strip(a)[i] == Strip(b)[i];
      }
      assert FireAll(a, answer) == FireAll(b, answer);
      DispatchIgnoresReports(q1[1..], q2[1..], answer);
    }
  }

  /** When nothing that is asked for is ready, a dispatch changes nothing. */
  lemma {:induction false} NothingFires(q: seq<PollQ>, answer: Answer)
    requires forall i, j :: 0 <= i < |q| && 0 <= j < |q[i].pds| ==> Fire(q[i].pds[j], answer).revents == {}
    ensures Woken(q, answer) == [] && Kept(q, answer) == StripQ(q)
  {
    if q != [] {
      assert !Notified(FireAll(q[0].pds, answer));
      NothingFires(q[1..], answer);
      assert StripQ(q) == [StripQ(q)[0]] + StripQ(q[1..]);
    }
  }

  /** When nothing is ready at all, nobody is woken. */
  lemma NothingReady(q: seq<PollQ>)
    ensures Woken(q, BySelect(map[])) == [] && Kept(q, BySelect(map[])) == StripQ(q)
  {
    NothingFires(q, BySelect(map[]));
  }

  /** A dispatch that wakes nobody leaves every element where it is. */
  lemma {:induction false} NobodyWoken(q: seq<PollQ>, answer: Answer)
    requires Woken(q, answer) == []
    ensures Kept(q, answer) == StripQ(q)
  {
    if q != [] {
      NobodyWoken(q[1..], answer);
      assert StripQ(q) == [StripQ(q)[0]] + StripQ(q[1..]);
    }
  }

  /** The io queue without the element of a thread. */
  function WithoutThread(q: seq<PollQ>, thread: int): seq<PollQ> {
    if q == [] then [] else if q[0].thread == thread then q[1..] else [q[0]] + WithoutThread(q[1..], thread)
  }

  // ------------------------------------------------------------------- recount

  /** All descriptors of the io queue, in queue order. */
  function Flat(q: seq<PollQ>): seq<PollFd> {
    if q == [] then [] else q[0].pds + Flat(q[1..])
  }

  lemma {:induction false} FlatConcat(a: seq<PollQ>, b: seq<PollQ>)
    ensures Flat(a + b) == Flat(a) + Flat(b)
  {
    if a == [] {
      assert a + b == b;
    } else {
      FlatConcat(a[1..], b);
      assert (a + b)[1..] == a[1..] + b;
      Associates(a[0].pds, Flat(a[1..]), Flat(b));
    }
  }

  /** How many of the descriptors ask for `bit` on `fd`. */
  function CountOn(pds: seq<PollFd>, fd: int, bit: Bit): nat {
    if pds == [] then 0
    else (if pds[0].fd == fd && bit in pds[0].events then 1 else 0) + CountOn(pds[1..], fd, bit)
  }

  lemma {:induction false} CountConcat(a: seq<PollFd>, b: seq<PollFd>, fd: int, bit: Bit)
    ensures CountOn(a + b, fd, bit) == CountOn(a, fd, bit) + CountOn(b, fd, bit)
  {
    if a == [] {
      assert a + b == b;
    } else {
      CountConcat(a[1..], b, fd, bit);
      assert (a + b)[1..] == a[1..] + b;
    }
  }

  lemma {:induction false} CountIsPositive(pds: seq<PollFd>, i: nat, bit: Bit)
    requires i < |pds| && bit in pds[i].events
    ensures CountOn(pds, pds[i].fd, bit) > 0
  {
    if i > 0 {
      CountIsPositive(pds[1..], i - 1, bit);
    }
  }

  /** A positive count has a witness. */
  lemma {:induction false} CountHasWitness(pds: seq<PollFd>, fd: int, bit: Bit) returns (i: nat)
    requires CountOn(pds, fd, bit) > 0
    ensures i < |pds| && pds[i].fd == fd && bit in pds[i].events
  {
    if pds[0].fd == fd && bit in pds[0].events {
      i := 0;
    } else {
      i := CountHasWitness(pds[1..], fd, bit);
      i := i + 1;
    }
  }

  lemma {:induction false} CountIgnoresReports(a: seq<PollFd>, b: seq<PollFd>, fd: int, bit: Bit)
    requires Strip(a) == Strip(b)
    ensures CountOn(a, fd, bit) == CountOn(b, fd, bit)
  {
    assert |a| == |Strip(a)| == |Strip(b)| == |b|;
    if a != [] {
      assert Strip(a)[0] == Strip(b)[0];
      assert Strip(a[1..]) == Strip(a)[1..] == Strip(b[1..]);
      CountIgnoresReports(a[1..], b[1..], fd, bit);
    }
  }

  lemma {:induction false} CountOfRequests(q: seq<PollQ>, fd: int, bit: Bit)
    ensures CountOn(Flat(StripQ(q)), fd, bit) == CountOn(Flat(q), fd, bit)
  {
    if q != [] {
      var r := StripQ(q);
      assert r[1..] == StripQ(q[1..]);
      CountOfRequests(q[1..], fd, bit);
      CountConcat(r[0].pds, Flat(r[1..]), fd, bit);
      CountConcat(q[0].pds, Flat(q[1..]), fd, bit);
      assert Strip(r[0].pds) == Strip(q[0].pds);
      CountIgnoresReports(r[0].pds, q[0].pds, fd, bit);
    }
  }

  /** Taking one element off the io queue takes its descriptors out of the count. */
  lemma CountWithout(q: seq<PollQ>, n: nat, fd: int, bit: Bit)
    requires n < |q|
    ensures CountOn(Flat(q), fd, bit) == CountOn(Flat(RemoveAt(q, n)), fd, bit) + CountOn(q[n].pds, fd, bit)
  {
    assert q == q[..n] + ([q[n]] + q[n + 1..]);
    FlatConcat(q[..n], [q[n]] + q[n + 1..]);
    FlatConcat(q[..n], q[n + 1..]);
    CountConcat(Flat(q[..n]), q[n].pds + Flat(q[n + 1..]), fd, bit);
    CountConcat(q[n].pds, Flat(q[n + 1..]), fd, bit);
    CountConcat(Flat(q[..n]), Flat(q[n + 1..]), fd, bit);
  }

  /** Reporting on an element does not change the count. */
  lemma CountReported(q: seq<PollQ>, n: nat, pq: PollQ, fd: int, bit: Bit)
    requires n < |q| && Strip(pq.pds) == Strip(q[n].pds)
    ensures CountOn(Flat(q[n := pq]), fd, bit) == CountOn(Flat(q), fd, bit)
  {
    CountWithout(q, n, fd, bit);
    CountWithout(q[n := pq], n, fd, bit);
    assert RemoveAt(q[n := pq], n) == RemoveAt(q, n);
    CountIgnoresReports(pq.pds, q[n].pds, fd, bit);
  }

  /** Appending an element adds its descriptors to the count. */
  lemma CountAppended(q: seq<PollQ>, pq: PollQ)
    ensures Flat(q + [pq]) == Flat(q) + pq.pds
  {
    FlatConcat(q, [pq]);
    assert Flat([pq]) == pq.pds;
  }

  /** `q'` is `q` after one turn of a dispatch loop: an element has been taken off
      at `n`, or the one before `n` has stayed. */
  ghost predicate Turned(q: seq<PollQ>, q': seq<PollQ>, n: nat, w: seq<PollQ>, answer: Answer) {
    if w == [] then
      && 1 <= n <= |q| == |q'|
      && q'[..n - 1] == q[..n - 1] && q'[n..] == q[n..]
      && q'[n - 1].thread == q[n - 1].thread && Strip(q'[n - 1].pds) == Strip(q[n - 1].pds)
      && !Notified(FireAll(q[n - 1].pds, answer))
    else
      && n < |q| && q' == RemoveAt(q, n) && w == [q[n].(pds := FireAll(q[n].pds, answer))]
      && Notified(FireAll(q[n].pds, answer))
  }

  lemma TurnedOff(q: seq<PollQ>, n: nat, answer: Answer)
    requires n < |q| && Notified(FireAll(q[n].pds, answer))
    ensures Turned(q, RemoveAt(q, n), n, [q[n].(pds := FireAll(q[n].pds, answer))], answer)
  {
  }

  lemma TurnedPast(q: seq<PollQ>, n: nat, answer: Answer)
    requires n < |q| && !Notified(FireAll(q[n].pds, answer))
    ensures Turned(q, q, n + 1, [], answer)
  {
  }

  lemma TurnedKeepsWoken(q: seq<PollQ>, q': seq<PollQ>, n: nat, w: seq<PollQ>, answer: Answer)
    requires Turned(q, q', n, w, answer)
    ensures Woken(q[if w == [] then n - 1 else n..], answer) == w + Woken(q'[n..], answer)
  {
    DropDrop(q, if w == [] then n - 1 else n, 1);
    if w != [] {
      RemoveAtParts(q, n);
    }
  }

  lemma StripTail(q: seq<PollQ>, pq: PollQ)
    ensures StripQ(q + [pq]) == StripQ(q) + [pq.(pds := Strip(pq.pds))]
  {
  }

  lemma StripRemoved(q: seq<PollQ>, n: nat)
    requires n < |q|
    ensures StripQ(RemoveAt(q, n)) == RemoveAt(StripQ(q), n)
  {
  }

  lemma TurnedKeepsKept(q: seq<PollQ>, q': seq<PollQ>, n: nat, w: seq<PollQ>, answer: Answer)
    requires Turned(q, q', n, w, answer)
    ensures StripQ(q'[..n]) + Kept(q'[n..], answer)
      == var m := if w == [] then n - 1 else n; StripQ(q[..m]) + Kept(q[m..], answer)
  {
    if w == [] {
      var m := n - 1;
      DropDrop(q, m, 1);
      PrefixNext(q', m);
      StripTail(q[..m], q'[m]);
      var kept := q[m].(pds := Strip(q[m].pds));
      assert Kept(q[m..], answer) == [kept] + Kept(q[m + 1..], answer);
      Associates(StripQ(q[..m]), [kept], Kept(q[m + 1..], answer));
    } else {
      RemoveAtParts(q, n);
      DropDrop(q, n, 1);
    }
  }

  lemma TurnedKeepsSum(q: seq<PollQ>, q': seq<PollQ>, n: nat, w: seq<PollQ>, answer: Answer, woken: seq<PollQ>)
    requires Turned(q, q', n, w, answer)
    ensures var m := if w == [] then n - 1 else n;
      && (woken + w) + Woken(q'[n..], answer) == woken + Woken(q[m..], answer)
      && StripQ(q'[..n]) + Kept(q'[n..], answer) == StripQ(q[..m]) + Kept(q[m..], answer)
  {
    TurnedKeepsWoken(q, q', n, w, answer);
    TurnedKeepsKept(q, q', n, w, answer);
    Associates(woken, w, Woken(q'[n..], answer));
  }

  lemma NotifiedConcat(a: seq<PollFd>, b: seq<PollFd>)
    ensures Notified(a + b) <==> Notified(a) || Notified(b)
  {
    if Notified(a) {
      var i :| 0 <= i < |a| && a[i].revents != {};
      assert (a + b)[i].revents != {};
    }
    if Notified(b) {
      var i :| 0 <= i < |b| && b[i].revents != {};
      assert (a + b)[|a| + i].revents != {};
    }
  }
}
