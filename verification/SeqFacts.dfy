/** Facts about sequences that the solver needs to be told one at a time. */
module SeqFacts {

  /** All elements but the one at index `n`. */
  function RemoveAt<T>(q: seq<T>, n: nat): seq<T>
    requires n < |q|
  {
    q[..n] + q[n + 1..]
  }

  /** What is before the element and what is after it. */
  lemma RemoveAtParts<T>(q: seq<T>, n: nat)
    requires n < |q|
    ensures RemoveAt(q, n)[..n] == q[..n] && RemoveAt(q, n)[n..] == q[n + 1..]
  {
  }

  lemma RemoveAtTail<T>(q: seq<T>, n: nat)
    requires 0 < n < |q|
    ensures RemoveAt(q, n) == [q[0]] + RemoveAt(q[1..], n - 1)
  {
  }

  lemma PrefixNext<T>(q: seq<T>, n: nat)
    requires n < |q|
    ensures q[..n + 1] == q[..n] + [q[n]]
  {
  }

  /** Unlinking an element that is linked once. */
  function Without<T(==)>(q: seq<T>, x: T): seq<T> {
    if q == [] then [] else if q[0] == x then q[1..] else [q[0]] + Without(q[1..], x)
  }

  /** The first occurrence goes, everything else stays in its order. */
  lemma {:induction false} WithoutAt<T>(q: seq<T>, x: T) returns (at: nat)
    ensures at <= |q| && (at < |q| ==> q[at] == x) && forall i :: 0 <= i < at ==> q[i] != x
    ensures Without(q, x) == if at < |q| then RemoveAt(q, at) else q
  {
    if q == [] || q[0] == x {
      at := 0;
      assert q != [] ==> RemoveAt(q, 0) == q[1..];
    } else {
      var n := WithoutAt(q[1..], x);
      at := n + 1;
      assert forall i :: 0 <= i < |q| - 1 ==> q[1..][i] == q[i + 1];
      if n < |q| - 1 {
        RemoveAtTail(q, at);
      } else {
        assert q == [q[0]] + q[1..];
      }
    }
  }

  lemma {:induction false} WithoutMembers<T>(q: seq<T>, x: T)
    requires forall i, j :: 0 <= i < j < |q| ==> q[i] != q[j]
    ensures forall y :: y in Without(q, x) <==> y in q && y != x
  {
    if q != [] {
      assert forall y :: y in q <==> y == q[0] || y in q[1..];
      assert q[0] !in q[1..];
      if q[0] != x {
        WithoutMembers(q[1..], x);
      }
    }
  }

  lemma {:induction false} WithoutLess<T>(q: seq<T>, x: T)
    requires forall i, j :: 0 <= i < j < |q| ==> q[i] != q[j]
    ensures x !in Without(q, x) && forall y :: y in Without(q, x) ==> y in q
  {
    if q != [] {
      assert forall i :: 0 <= i < |q| - 1 ==> q[1..][i] == q[i + 1];
      if q[0] != x {
        WithoutLess(q[1..], x);
      }
    }
  }

  lemma Associates<T>(a: seq<T>, b: seq<T>, c: seq<T>)
    ensures (a + b) + c == a + (b + c)
  {
  }

  /** Dropping from a concatenation, within its first part. */
  lemma DropsFromFirst<T>(a: seq<T>, b: seq<T>, n: nat)
    requires n <= |a|
    ensures (a + b)[n..] == a[n..] + b
  {
  }

  /** Taking a prefix of what is left, and leaving the rest. */
  lemma TakesNext<T>(done: seq<T>, rest: seq<T>, n: nat)
    requires n <= |rest|
    ensures (done + rest[..n]) + rest[n..] == done + rest
  {
    assert rest == rest[..n] + rest[n..];
  }

  lemma FirstPart<T>(a: seq<T>, b: seq<T>, whole: seq<T>)
    requires a + b == whole
    ensures a == whole[..|whole| - |b|] && b == whole[|whole| - |b|..]
  {
  }

  /** A prefix that grows by what comes next. */
  lemma PrefixGrows<T>(whole: seq<T>, done: nat, n: nat)
    requires done + n <= |whole|
    ensures whole[..done] + whole[done..][..n] == whole[..done + n]
  {
  }

  /** A concatenation that grows by the next element. */
  lemma AppendsNext<T>(a: seq<T>, b: seq<T>, n: nat)
    requires n < |b|
    ensures a + b[..n] + [b[n]] == a + b[..n + 1]
  {
  }

  /** A part of a prefix is a part of the whole. */
  lemma PartOfPrefix<T>(s: seq<T>, m: nat, i: nat, j: nat)
    requires i <= j <= m <= |s|
    ensures s[..m][i..j] == s[i..j]
  {
  }

  lemma DropDrop<T>(s: seq<T>, m: nat, n: nat)
    requires m + n <= |s|
    ensures s[m..][n..] == s[m + n..]
  {
  }
}
