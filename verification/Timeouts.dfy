/** How long a dispatch lets the kernel wait.  The queue of sleeping threads is a
    heap, so the root's due time bounds the wait of every sleeper; the C code then
    converts the wait to the kernel's units through an `(int)` cast. */
module Timeouts {
  import opened HeapLayout

  datatype Option<+T> = None | Some(value: T)

  const INT_SPAN: int := 0x1_0000_0000

  /** `(int) x` for a non-negative 64-bit `x`: the low 32 bits, as a signed number. */
  function ToInt(x: nat): int {
    var low := x % INT_SPAN;
    if low < INT_SPAN / 2 then low else low - INT_SPAN
  }

  /** `min_timeout`: microseconds until the root of the sleep queue is due. */
  function MinTimeout<T>(h: seq<Entry<T>>, lastClock: int): nat
    requires h != []
  {
    if At(h, 1).due <= lastClock then 0 else At(h, 1).due - lastClock
  }

  /** The timeout argument of `poll` and `epoll_wait`, in milliseconds; a negative
      one makes the kernel wait without limit. */
  function PollTimeout<T>(h: seq<Entry<T>>, lastClock: int): int {
    if h == [] then -1 else ToInt(MinTimeout(h, lastClock) / 1000)
  }

  /** The `struct timeval` of `select`: seconds and microseconds; none means no limit. */
  function SelectTimeout<T>(h: seq<Entry<T>>, lastClock: int): Option<(int, int)> {
    if h == [] then None
    else Some((ToInt(MinTimeout(h, lastClock) / 1000000), ToInt(MinTimeout(h, lastClock) % 1000000)))
  }

  /** The longest time, in microseconds, that `poll` waits; `None` is no limit. */
  function PollWait(timeout: int): Option<nat> {
    if timeout < 0 then None else Some(1000 * timeout)
  }

  /** `select` fails with EINVAL: the timeout has a negative part. */
  predicate Invalid(timeout: Option<(int, int)>) {
    timeout.Some? && (timeout.value.0 < 0 || timeout.value.1 < 0)
  }

  /** The longest time that `select` waits; when it fails it does not wait at all. */
  function SelectWait(timeout: Option<(int, int)>): Option<nat> {
    if timeout.None? then None
    else if Invalid(timeout) then Some(0)
    else Some(1000000 * timeout.value.0 + timeout.value.1)
  }

  /** `select` fails exactly when the root of the sleep queue is due in a number of
      seconds with bit 31 set: the cast then yields a negative number. */
  lemma SelectFailsIff<T>(h: seq<Entry<T>>, lastClock: int)
    ensures Invalid(SelectTimeout(h, lastClock))
       <==> h != [] && MinTimeout(h, lastClock) / 1000000 % INT_SPAN >= INT_SPAN / 2
  {
    if h != [] {
      var usec := MinTimeout(h, lastClock) % 1000000;
      assert usec % INT_SPAN == usec < INT_SPAN / 2;
    }
  }

  /** A wait ends no later than every sleeper is due, and at once for a sleeper
      that is overdue. */
  ghost predicate NobodyOversleeps<T>(h: seq<Entry<T>>, lastClock: int, wait: Option<nat>) {
    forall i :: 1 <= i <= |h| ==>
      wait.Some? && wait.value <= if At(h, i).due <= lastClock then 0 else At(h, i).due - lastClock
  }

  /** The root's wait is a bound for every sleeper. */
  lemma RootBoundsAll<T>(h: seq<Entry<T>>, lastClock: int, wait: Option<nat>)
    requires h != [] && HeapOrdered(h)
    ensures NobodyOversleeps(h, lastClock, wait) <==> wait.Some? && wait.value <= MinTimeout(h, lastClock)
  {
    if wait.Some? && wait.value <= MinTimeout(h, lastClock) {
      forall i | 1 <= i <= |h|
        ensures wait.value <= if At(h, i).due <= lastClock then 0 else At(h, i).due - lastClock
      {
        RootIsMin(h, i);
      }
    }
    if NobodyOversleeps(h, lastClock, wait) {
      var root := At(h, 1);
      assert wait.value <= if root.due <= lastClock then 0 else root.due - lastClock;
    }
  }

  /** `select` never lets a sleeper oversleep. */
  lemma SelectNeverOversleeps<T>(h: seq<Entry<T>>, lastClock: int)
    requires HeapOrdered(h)
    ensures NobodyOversleeps(h, lastClock, SelectWait(SelectTimeout(h, lastClock)))
  {
    if h != [] {
      RootBoundsAll(h, lastClock, SelectWait(SelectTimeout(h, lastClock)));
    }
  }

  /** How long until an entry is due. */
  function Remaining<T>(e: Entry<T>, lastClock: int): nat {
    if e.due <= lastClock then 0 else e.due - lastClock
  }

  /** Unless its timeout overflows, `select` waits exactly until the first sleeper is due,
      without limit if nobody sleeps; `poll` and `epoll_wait` do so to the millisecond. */
  lemma WaitsAreExact<T>(h: seq<Entry<T>>, lastClock: int, first: nat)
    requires HeapOrdered(h)
    requires h != [] ==> exists i :: 1 <= i <= |h| && Remaining(At(h, i), lastClock) == first
    requires forall i :: 1 <= i <= |h| ==> first <= Remaining(At(h, i), lastClock)
    ensures h == [] ==> SelectWait(SelectTimeout(h, lastClock)) == None == PollWait(PollTimeout(h, lastClock))
    ensures h != [] && first / 1000000 < INT_SPAN / 2 ==> SelectWait(SelectTimeout(h, lastClock)) == Some(first)
    ensures h != [] && first / 1000 < INT_SPAN / 2 ==>
      var wait := PollWait(PollTimeout(h, lastClock)); wait.Some? && wait.value <= first < wait.value + 1000
  {
    if h != [] {
      var i :| 1 <= i <= |h| && Remaining(At(h, i), lastClock) == first;
      RootIsMin(h, i);
      assert MinTimeout(h, lastClock) == Remaining(At(h, 1), lastClock) == first;
      SmallFits(first);
    }
  }

  lemma SmallFits(first: nat)
    ensures first / 1000000 < INT_SPAN / 2 ==> ToInt(first / 1000000) == first / 1000000
    ensures ToInt(first % 1000000) == first % 1000000 && first == 1000000 * (first / 1000000) + first % 1000000
    ensures first / 1000 < INT_SPAN / 2 ==> ToInt(first / 1000) == first / 1000
  {
  }

  /** `poll` and `epoll_wait` let nobody oversleep exactly when the wait in
      milliseconds does not have bit 31 set: the cast then yields a negative
      number, which the kernel takes for "no limit". */
  lemma PollOversleepsIff<T>(h: seq<Entry<T>>, lastClock: int)
    requires h != [] && HeapOrdered(h)
    ensures NobodyOversleeps(h, lastClock, PollWait(PollTimeout(h, lastClock)))
       <==> MinTimeout(h, lastClock) / 1000 % INT_SPAN < INT_SPAN / 2
  {
    RootBoundsAll(h, lastClock, PollWait(PollTimeout(h, lastClock)));
  }

  /** A single sleeper that is due in 2^31 milliseconds (less than 25 days) makes
      the poll and epoll dispatch wait without limit. */
  lemma LongSleeperOversleeps(who: nat)
    ensures var h := [Entry(who, 2147483648000)];
      PollWait(PollTimeout(h, 0)) == None && !NobodyOversleeps(h, 0, None)
  {
    var h := [Entry(who, 2147483648000)];
    assert At(h, 1).due == 2147483648000;
  }
}
