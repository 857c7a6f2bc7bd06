/** The 32-bit event word of a task, bit by bit, and the atomic operations of
    FrameWork/CommonUtilitiesLib-linux-windows/atomic.cpp on it. */
module EventWord {
  import opened MachineTypes

  const WIDTH := 32

  /** `kAlive` is 0x80000000 and `kIdleEvent` is 0x2. */
  const ALIVE_BIT := 31
  const IDLE_BIT := 1

  /** The bits of a machine word, the least significant one first. */
  type Word = v: seq<bool> | |v| == WIDTH witness seq(WIDTH, _ => false)

  function NoEvents(): (r: Word)
    ensures forall i :: 0 <= i < WIDTH ==> !r[i]
  {
    seq(WIDTH, _ => false)
  }

  function OnlyBit(b: nat): (r: Word)
    requires b < WIDTH
    ensures forall i :: 0 <= i < WIDTH ==> r[i] == (i == b)
  {
    seq(WIDTH, i => i == b)
  }

  predicate IsAlive(v: Word) {
    v[ALIVE_BIT]
  }

  /** `v & kAliveOff`. */
  function EventsIn(v: Word): Word {
    v[ALIVE_BIT := false]
  }

  function Or(v: Word, w: Word): (r: Word)
    ensures forall i :: 0 <= i < WIDTH ==> r[i] == (v[i] || w[i])
  {
    seq(WIDTH, i requires 0 <= i < WIDTH => v[i] || w[i])
  }

  function Cleared(v: Word, e: Word): (r: Word)
    ensures forall i :: 0 <= i < WIDTH ==> r[i] == (v[i] && !e[i])
  {
    seq(WIDTH, i requires 0 <= i < WIDTH => v[i] && !e[i])
  }

  /** `e` has no bits that `v` does not have. */
  predicate Within(e: seq<bool>, v: seq<bool>)
    requires |e| == |v|
  {
    forall i :: 0 <= i < |e| ==> e[i] ==> v[i]
  }

  // --------------------------------------------------------------- subtraction

  /** Binary subtraction with a borrow, from the least significant bit up. */
  function SubBits(v: seq<bool>, e: seq<bool>, borrow: bool): (r: seq<bool>)
    requires |v| == |e|
    ensures |r| == |v|
  {
    if v == [] then []
    else [(v[0] != e[0]) != borrow] + SubBits(v[1..], e[1..], BorrowsNext(v[0], e[0], borrow))
  }

  predicate BorrowsNext(v: bool, e: bool, borrow: bool) {
    if v then e && borrow else e || borrow
  }

  predicate BorrowsOut(v: seq<bool>, e: seq<bool>, borrow: bool)
    requires |v| == |e|
  {
    if v == [] then borrow else BorrowsOut(v[1..], e[1..], BorrowsNext(v[0], e[0], borrow))
  }

  /** Subtraction of machine words, with wrap-around. */
  function Minus(v: Word, e: Word): Word {
    SubBits(v, e, false)
  }

  function Bit(b: bool): nat {
    if b then 1 else 0
  }

  /** The number that the bits stand for. */
  function Value(v: seq<bool>): nat {
    if v == [] then 0 else Bit(v[0]) + 2 * Value(v[1..])
  }

  /** `SubBits` is subtraction modulo two to the power of the width. */
  lemma {:induction false} SubBitsIsSubtraction(v: seq<bool>, e: seq<bool>, borrow: bool)
    requires |v| == |e|
    ensures Value(SubBits(v, e, borrow))
      == Value(v) - Value(e) - Bit(borrow) + Bit(BorrowsOut(v, e, borrow)) * Pow2(|v|)
  {
    if v != [] {
      var next := BorrowsNext(v[0], e[0], borrow);
      var rest := SubBits(v[1..], e[1..], next);
      SubBitsIsSubtraction(v[1..], e[1..], next);
      assert SubBits(v, e, borrow)[1..] == rest;
      OneBit(v[0], e[0], borrow, Value(rest), Value(v[1..]), Value(e[1..]), Bit(BorrowsOut(v[1..], e[1..], next)), Pow2(|v| - 1));
    }
  }

  /** One step of the sum: the lowest bit, and twice the rest. */
  lemma OneBit(v: bool, e: bool, borrow: bool, rest: int, restV: int, restE: int, out: int, power: int)
    requires rest == restV - restE - Bit(BorrowsNext(v, e, borrow)) + out * power
    ensures Bit((v != e) != borrow) + 2 * rest == Bit(v) + 2 * restV - (Bit(e) + 2 * restE) - Bit(borrow) + out * (2 * power)
  {
    assert 2 * (out * power) == out * (2 * power);
  }

  /** Where every subtracted bit is set, nothing is borrowed: subtraction clears
      exactly the subtracted bits. */
  lemma {:induction false} NoBorrow(v: seq<bool>, e: seq<bool>)
    requires |v| == |e| && Within(e, v)
    ensures forall i :: 0 <= i < |v| ==> SubBits(v, e, false)[i] == (v[i] && !e[i])
    ensures !BorrowsOut(v, e, false)
  {
    if v != [] {
      assert e[0] ==> v[0];
      assert forall i :: 0 <= i < |v| - 1 ==> v[1..][i] == v[i + 1] && e[1..][i] == e[i + 1];
      NoBorrow(v[1..], e[1..]);
      forall i | 0 <= i < |v| ensures SubBits(v, e, false)[i] == (v[i] && !e[i]) {
        assert i > 0 ==> SubBits(v, e, false)[i] == SubBits(v[1..], e[1..], false)[i - 1];
      }
    }
  }

  /** Subtracting reported events leaves the alive bit and all other events. */
  lemma SubClears(v: Word, e: Word)
    requires Within(e, v) && !IsAlive(e)
    ensures Minus(v, e) == Cleared(v, e)
    ensures IsAlive(Minus(v, e)) <==> IsAlive(v)
    ensures EventsIn(Minus(v, e)) == Cleared(EventsIn(v), e)
  {
    NoBorrow(v, e);
  }

  // ----------------------------------------------------------------- the class

  /** A word of the process, shared by its threads; each method is one atomic step. */
  class AtomicWord {
    var area: Word

    constructor ()
      ensures area == NoEvents()
    {
      area := NoEvents();
    }

    /** `atomic_sub`: returns the new value. */
    method Sub(val: Word) returns (r: Word)
      modifies this
      ensures area == Minus(old(area), val) && r == area
    {
      area := Minus(area, val);
      r := area;
    }

    /** `atomic_or`: returns the old value. */
    method OrIn(val: Word) returns (oldVal: Word)
      modifies this
      ensures area == Or(old(area), val) && oldVal == old(area)
    {
      oldVal := area;
      area := Or(oldVal, val);
    }

    /** `compare_and_store`. */
    method CompareAndStore(oval: Word, nval: Word) returns (rv: bool)
      modifies this
      ensures rv <==> old(area) == oval
      ensures area == if rv then nval else old(area)
    {
      rv := oval == area;
      if rv {
        area := nval;
      }
    }

    /** `Task::GetEvents`, when nobody signals in between: the events are returned
        and cleared, the alive bit stays. */
    method GetEvents() returns (events: Word)
      modifies this
      ensures events == EventsIn(old(area))
      ensures EventsIn(area) == NoEvents() && (IsAlive(area) <==> IsAlive(old(area)))
    {
      events := EventsIn(area);
      SubClears(area, events);
      var left := Sub(events);
      assert EventsIn(area) == NoEvents();
    }
  }
}
