/** The write loops of state-threads/io.c: `st_writev_resid`, `st_write_resid`,
    `st_write` and `st_writev` send every byte once and in order, whatever the
    kernel accepts at a time. */
module VectorIO {
  import opened MachineTypes
  import opened SeqFacts

  datatype Vector<T> = Vector(buf: seq<T>, off: nat, len: nat)

  /** `struct iovec`: `len` elements of a buffer, from the offset `off` on. For a
      write the elements are the bytes of the buffer, for a read their addresses. */
  type IoVec<T> = v: Vector<T> | v.off + v.len <= |v.buf| witness Vector([], 0, 0)

  function Elements<T>(v: IoVec<T>): (b: seq<T>)
    ensures |b| == v.len
  {
    v.buf[v.off..v.off + v.len]
  }

  /** The bytes that the vectors describe, in order. */
  function Concat<T>(vs: seq<IoVec<T>>): seq<T> {
    if vs == [] then [] else Elements(vs[0]) + Concat(vs[1..])
  }

  lemma {:induction false} ConcatSplit<T>(a: seq<IoVec<T>>, b: seq<IoVec<T>>)
    ensures Concat(a + b) == Concat(a) + Concat(b)
  {
    if a == [] {
      assert a + b == b;
    } else {
      ConcatSplit(a[1..], b);
      assert (a + b)[1..] == a[1..] + b;
      Associates(Elements(a[0]), Concat(a[1..]), Concat(b));
    }
  }

  /** `iov_base += n, iov_len -= n`. */
  function Skip<T>(v: IoVec<T>, n: nat): IoVec<T>
    requires n <= v.len
  {
    Vector(v.buf, v.off + n, v.len - n)
  }

  /** The rest of a partly written vector, and the vectors after it. */
  lemma SkipConcat<T>(vs: seq<IoVec<T>>, n: nat)
    requires vs != [] && n <= vs[0].len
    ensures Concat([Skip(vs[0], n)] + vs[1..]) == Concat(vs)[n..]
  {
    assert ([Skip(vs[0], n)] + vs[1..])[1..] == vs[1..];
    assert Elements(Skip(vs[0], n)) == Elements(vs[0])[n..];
    DropsFromFirst(Elements(vs[0]), Concat(vs[1..]), n);
  }

  /** `w` describes the end of what `v` describes. */
  ghost predicate Suffix<T>(v: IoVec<T>, w: IoVec<T>) {
    w.buf == v.buf && v.off <= w.off && w.off + w.len == v.off + v.len
  }

  // ---------------------------------------------------------------- the kernel

  /** What a call of `write` or `writev` may come to: some bytes are accepted, a
      signal interrupts it, it would block, or it fails. */
  datatype Reply = Accept(n: nat) | Interrupted | WouldBlock | Error

  datatype Errno = NONE | EINTR | EAGAIN | EPIPE

  /** A socket with everything that the kernel will answer, in order; after that
      every call fails. */
  class Socket {
    var replies: seq<Reply>
    var polls: seq<bool>               // whether each wait for the socket succeeds
    var accepted: seq<Byte>
    var errno: Errno
    ghost var broken: bool             // a write or a wait has failed for good

    constructor (replies: seq<Reply>, polls: seq<bool>)
      ensures accepted == [] && !broken
    {
      this.replies, this.polls, accepted, errno, broken := replies, polls, [], NONE, false;
    }

    /** `write` and `writev`: a prefix of the data is accepted, or nothing. */
    method Write(data: seq<Byte>) returns (n: int)
      modifies this
      ensures n < 0 || n <= |data|
      ensures accepted == old(accepted) + if n < 0 then [] else data[..n]
      ensures n >= 0 || errno == EINTR || errno == EAGAIN ==> |replies| < |old(replies)|
      ensures polls == old(polls) && broken == (old(broken) || (n < 0 && errno != EINTR && errno != EAGAIN))
    {
      var reply := if replies == [] then Error else replies[0];
      replies := if replies == [] then [] else replies[1..];
      match reply
      case Accept(k) =>
        n := if k < |data| then k else |data|;
        accepted := accepted + data[..n];
      case Interrupted => n, errno := -1, EINTR;
      case WouldBlock => n, errno := -1, EAGAIN;
      case Error => n, errno, broken := -1, EPIPE, true;
    }

    /** `st_netfd_poll`. */
    method WaitWritable() returns (ok: bool)
      modifies this`polls, this`broken
      ensures broken == (old(broken) || !ok)
    {
      ok := polls != [] && polls[0];
      polls, broken := if polls == [] then [] else polls[1..], broken || !ok;
    }
  }

  // ------------------------------------------------------------ st_writev_resid

  lemma HeadOfRest<T>(vs: seq<IoVec<T>>, pos: nat)
    requires pos < |vs|
    ensures |Concat(vs[pos..])| >= vs[pos].len
  {
    assert vs[pos..][0] == vs[pos];
  }

  /** What comes after a vector that has been passed. */
  lemma PassConcat<T>(vs: seq<IoVec<T>>, whole: seq<T>, done: nat)
    requires vs != [] && done + vs[0].len <= |whole| && Concat(vs) == whole[done..]
    ensures Concat(vs[1..]) == whole[done + vs[0].len..]
  {
    assert Concat(vs[1..]) == Concat(vs)[vs[0].len..];
    DropDrop(whole, done, vs[0].len);
  }

  /** The first bytes of a vector are cut off. */
  method Cut<T>(iov: array<IoVec<T>>, pos: nat, n: nat)
    requires pos < iov.Length && n <= iov[pos].len
    modifies iov
    ensures Concat(iov[pos..]) == old(Concat(iov[pos..]))[n..]
    ensures Suffix(old(iov[pos]), iov[pos]) && iov[pos].len == old(iov[pos].len) - n
    ensures forall i :: 0 <= i < iov.Length && i != pos ==> iov[i] == old(iov[i])
    ensures iov[pos + 1..] == old(iov[pos + 1..])
  {
    ghost var vs := iov[pos..];
    assert vs[0] == iov[pos] && vs[1..] == iov[pos + 1..];
    SkipConcat(vs, n);
    iov[pos] := Skip(iov[pos], n);
    assert iov[pos..] == [Skip(vs[0], n)] + vs[1..];
  }

  /** A vector that is written in full is emptied and passed. */
  method PassOne<T>(iov: array<IoVec<T>>, pos: nat, ghost whole: seq<T>, ghost done: nat) returns (len: nat)
    requires pos < iov.Length && done <= |whole| && Concat(iov[pos..]) == whole[done..]
    modifies iov
    ensures len == old(iov[pos].len) && done + len <= |whole| && Concat(iov[pos + 1..]) == whole[done + len..]
    ensures Suffix(old(iov[pos]), iov[pos]) && iov[pos].len == 0
    ensures forall i :: 0 <= i < iov.Length && i != pos ==> iov[i] == old(iov[i])
  {
    assert iov[pos..][0] == iov[pos] && iov[pos..][1..] == iov[pos + 1..];
    HeadOfRest(iov[..], pos);
    assert iov[..][pos..] == iov[pos..];
    PassConcat(iov[pos..], whole, done);
    len := iov[pos].len;
    Cut(iov, pos, len);
  }

  /** The inner loop of `st_writev_resid`: vectors that are written in full are
      emptied and passed; `n` bytes of the next one are written. */
  method Pass<T>(iov: array<IoVec<T>>, pos: nat, accepted: nat) returns (pos': nat, n: nat)
    requires pos < iov.Length && accepted <= |Concat(iov[pos..])|
    modifies iov
    ensures pos <= pos' <= iov.Length && n <= accepted
    ensures if pos' < iov.Length then n <= iov[pos'].len else n == 0
    ensures Concat(iov[pos'..]) == old(Concat(iov[pos..]))[accepted - n..]
    ensures forall i :: 0 <= i < pos || pos' <= i < iov.Length ==> iov[i] == old(iov[i])
    ensures forall i :: pos <= i < pos' ==> Suffix(old(iov[i]), iov[i]) && iov[i].len == 0
  {
    pos', n := pos, accepted;
    ghost var whole := Concat(iov[pos..]);
    while n >= iov[pos'].len
      invariant pos <= pos' < iov.Length && 0 <= n <= accepted
      invariant Concat(iov[pos'..]) == whole[accepted - n..] && |Concat(iov[pos'..])| >= n
      invariant forall i :: 0 <= i < pos || pos' <= i < iov.Length ==> iov[i] == old(iov[i])
      invariant forall i :: pos <= i < pos' ==> Suffix(old(iov[i]), iov[i]) && iov[i].len == 0
      decreases iov.Length - pos'
    {
      var len := PassOne(iov, pos', whole, accepted - n);
      pos', n := pos' + 1, n - len;
      if n == 0 {
        break;
      }
    }
  }

  /** The vectors after `accepted` more bytes have been written. */
  method Advance<T>(iov: array<IoVec<T>>, pos: nat, accepted: nat) returns (pos': nat)
    requires pos < iov.Length && accepted <= |Concat(iov[pos..])|
    modifies iov
    ensures pos <= pos' <= iov.Length
    ensures Concat(iov[pos'..]) == old(Concat(iov[pos..]))[accepted..]
    ensures forall i :: 0 <= i < pos ==> iov[i] == old(iov[i])
    ensures forall i :: pos <= i < iov.Length ==> Suffix(old(iov[i]), iov[i]) && (i < pos' ==> iov[i].len == 0)
  {
    ghost var whole := Concat(iov[pos..]);
    var n;
    pos', n := Pass(iov, pos, accepted);
    if pos' < iov.Length {
      HeadOfRest(iov[..], pos');
      assert iov[..][pos'..] == iov[pos'..];
      Cut(iov, pos', n);
      DropDrop(whole, accepted - n, n);
    }
  }

  /** The bytes accepted since `base`, and those that the remaining vectors still
      describe, are together the bytes `whole`. */
  ghost predicate Conserved(accepted: seq<Byte>, rest: seq<IoVec<Byte>>, base: seq<Byte>, whole: seq<Byte>) {
    base <= accepted && accepted[|base|..] + Concat(rest) == whole
  }

  /** Each vector describes the end of what it described before; those before
      `pos` describe nothing any more. */
  twostate predicate Shrunk<T>(iov: array<IoVec<T>>, pos: nat)
    reads iov
  {
    forall i :: 0 <= i < iov.Length ==> Suffix(old(iov[i]), iov[i]) && (i < pos ==> iov[i].len == 0)
  }

  /** The call of `write` (for one vector) or `writev`. */
  method WriteOnce(sock: Socket, iov: array<IoVec<Byte>>, pos: nat, ghost base: seq<Byte>, ghost whole: seq<Byte>) returns (n: int)
    requires pos < iov.Length && Conserved(sock.accepted, iov[pos..], base, whole)
    modifies sock
    ensures n < 0 ==> sock.accepted == old(sock.accepted)
    ensures base <= sock.accepted
    ensures n >= 0 ==> n <= |Concat(iov[pos..])| && sock.accepted[|base|..] + Concat(iov[pos..])[n..] == whole
    ensures n >= 0 || sock.errno == EINTR || sock.errno == EAGAIN ==> |sock.replies| < |old(sock.replies)|
    ensures sock.broken == (old(sock.broken) || (n < 0 && sock.errno != EINTR && sock.errno != EAGAIN))
  {
    ghost var rest, done := Concat(iov[pos..]), sock.accepted[|base|..];
    if iov.Length - pos == 1 {
      assert iov[pos..] == [iov[pos]] && Concat(iov[pos..]) == Elements(iov[pos]);
      n := sock.Write(Elements(iov[pos]));
    } else {
      n := sock.Write(Concat(iov[pos..]));
    }
    if n >= 0 {
      TakesNext(done, rest, n);
      assert sock.accepted[|base|..] == done + rest[..n];
    }
  }

  /** One write, and the advance over what was accepted. */
  method WriteStep(sock: Socket, iov: array<IoVec<Byte>>, pos: nat, ghost base: seq<Byte>, ghost whole: seq<Byte>)
      returns (n: int, pos': nat)
    requires pos < iov.Length && Conserved(sock.accepted, iov[pos..], base, whole)
    modifies sock, iov
    ensures pos <= pos' <= iov.Length && Conserved(sock.accepted, iov[pos'..], base, whole)
    ensures forall i :: 0 <= i < pos ==> iov[i] == old(iov[i])
    ensures forall i :: pos <= i < iov.Length ==> Suffix(old(iov[i]), iov[i]) && (i < pos' ==> iov[i].len == 0)
    ensures n >= 0 || sock.errno == EINTR || sock.errno == EAGAIN ==> |sock.replies| < |old(sock.replies)|
    ensures sock.broken == (old(sock.broken) || (n < 0 && sock.errno != EINTR && sock.errno != EAGAIN))
  {
    n := WriteOnce(sock, iov, pos, base, whole);
    pos' := pos;
    if n >= 0 {
      pos' := Advance(iov, pos, n);
    }
  }

  /** `st_writev_resid`: the vectors from `pos` on are the ones not yet sent; it fails
      only if a write or a wait fails for good. */
  method WritevResid(sock: Socket, iov: array<IoVec<Byte>>) returns (rv: int, pos: nat)
    modifies sock, iov
    ensures pos <= iov.Length && Shrunk(iov, pos)
    ensures Conserved(sock.accepted, iov[pos..], old(sock.accepted), old(Concat(iov[..])))
    ensures rv == -1 || (rv == 0 && pos == iov.Length)
    ensures sock.broken == (old(sock.broken) || rv == -1)
  {
    pos := 0;
    ghost var base, whole := sock.accepted, Concat(iov[..]);
    assert iov[0..] == iov[..];
    while pos < iov.Length
      invariant pos <= iov.Length && Conserved(sock.accepted, iov[pos..], base, whole) && Shrunk(iov, pos)
      invariant sock.broken == old(sock.broken)
      decreases |sock.replies|
    {
      var n;
      n, pos := WriteStep(sock, iov, pos, base, whole);
      if n < 0 {
        if sock.errno == EINTR {
          continue;
        }
        if sock.errno != EAGAIN {
          return -1, pos;
        }
      } else if pos == iov.Length {
        break;
      }
      var ok := sock.WaitWritable();
      if !ok {
        return -1, pos;
      }
    }
    rv := 0;
  }

  lemma ConcatOne<T>(v: IoVec<T>)
    ensures Concat([v]) == Elements(v)
  {
  }

  /** `st_write_resid`: what is left of the buffer is its unsent suffix. */
  method WriteResid(sock: Socket, data: IoVec<Byte>) returns (rv: int, resid: nat)
    modifies sock
    ensures resid <= data.len
    ensures sock.accepted == old(sock.accepted) + Elements(data)[..data.len - resid]
    ensures rv == -1 || (rv == 0 && resid == 0)
    ensures sock.broken == (old(sock.broken) || rv == -1)
  {
    var iov := new IoVec<Byte>[1](_ => data);
    ghost var base := sock.accepted;
    ConcatOne(data);
    assert iov[..] == [data];
    var pos;
    rv, pos := WritevResid(sock, iov);
    resid := iov[0].len;
    ConcatOne(iov[0]);
    assert iov[pos..] == if pos == 0 then [iov[0]] else [];
    FirstPart(sock.accepted[|base|..], Concat(iov[pos..]), Elements(data));
    assert sock.accepted == base + sock.accepted[|base|..];
  }

  /** `st_write`: all of the buffer is sent, or the call fails with a prefix sent. */
  method Write(sock: Socket, data: IoVec<Byte>) returns (rv: int)
    modifies sock
    ensures old(sock.accepted) <= sock.accepted && sock.accepted[|old(sock.accepted)|..] <= Elements(data)
    ensures rv == -1 || (rv == data.len && sock.accepted == old(sock.accepted) + Elements(data))
    ensures sock.broken == (old(sock.broken) || rv == -1)
  {
    var resid;
    rv, resid := WriteResid(sock, data);
    rv := if rv == 0 then data.len - resid else -1;
    assert sock.accepted[|old(sock.accepted)|..] == Elements(data)[..data.len - resid];
  }

  // ------------------------------------------------------------------ st_writev

  const LOCAL_MAXIOV := 16

  /** The vector that the byte at position `n` of the whole lies in. */
  function FirstUnsent(vs: seq<IoVec<Byte>>, n: nat): (i: nat)
    requires n < |Concat(vs)|
    ensures i < |vs|
  {
    if n < vs[0].len then 0 else 1 + FirstUnsent(vs[1..], n - vs[0].len)
  }

  lemma {:induction false} FirstUnsentGrows(vs: seq<IoVec<Byte>>, m: nat, n: nat)
    requires m <= n < |Concat(vs)|
    ensures FirstUnsent(vs, m) <= FirstUnsent(vs, n)
  {
    if vs[0].len <= m {
      FirstUnsentGrows(vs[1..], m - vs[0].len, n - vs[0].len);
    }
  }

  /** "Find the next unwritten vector": its index, and how much of it is written. */
  method FindUnsent(iov: array<IoVec<Byte>>, sent: nat) returns (index: nat, n: nat)
    requires sent < |Concat(iov[..])|
    ensures index == FirstUnsent(iov[..], sent) && n < iov[index].len
    ensures Concat([Skip(iov[index], n)] + iov[index + 1..]) == Concat(iov[..])[sent..]
  {
    index, n := 0, sent;
    assert iov[0..] == iov[..];
    while n >= iov[index].len
      invariant 0 <= index < iov.Length && 0 <= n < |Concat(iov[index..])|
      invariant FirstUnsent(iov[..], sent) == index + FirstUnsent(iov[index..], n)
      invariant Concat(iov[index..])[n..] == Concat(iov[..])[sent..]
      decreases iov.Length - index
    {
      assert iov[index..][0] == iov[index] && iov[index..][1..] == iov[index + 1..];
      n := n - iov[index].len;
      index := index + 1;
    }
    assert iov[index..][0] == iov[index] && iov[index..][1..] == iov[index + 1..];
    SkipConcat(iov[index..], n);
  }

  /** The copy of the vectors that are still to be written, from vector `index` on
      and without its first `n` bytes; `cnt` is how many there are. */
  method CopyRest(iov: array<IoVec<Byte>>, tmp: array<IoVec<Byte>>, index: nat, n: nat) returns (cnt: nat)
    requires index < iov.Length && n <= iov[index].len && tmp != iov && iov.Length - index <= tmp.Length
    modifies tmp
    ensures cnt == iov.Length - index && tmp[..cnt] == [Skip(iov[index], n)] + iov[index + 1..]
  {
    tmp[0] := Skip(iov[index], n);
    cnt := 1;
    var i := index + 1;
    while i < iov.Length
      invariant index + 1 <= i <= iov.Length && cnt == i - index
      invariant tmp[..cnt] == [Skip(iov[index], n)] + iov[index + 1..i]
    {
      tmp[cnt] := iov[i];
      assert tmp[..cnt + 1] == tmp[..cnt] + [iov[i]];
      assert iov[index + 1..i + 1] == iov[index + 1..i] + [iov[i]];
      cnt, i := cnt + 1, i + 1;
    }
    assert iov[index + 1..i] == iov[index + 1..];
  }

  /** The first bytes of `vs` are accepted on top of `base`; `nleft` are not, and
      `rest` describes those. */
  ghost predicate Writing(accepted: seq<Byte>, base: seq<Byte>, vs: seq<IoVec<Byte>>, rest: seq<IoVec<Byte>>, nleft: nat) {
    && nleft <= |Concat(vs)|
    && accepted == base + Concat(vs)[..|Concat(vs)| - nleft]
    && Concat(rest) == Concat(vs)[|Concat(vs)| - nleft..]
  }

  /** A private array of this size has room for every vector that is not sent. */
  ghost predicate HasRoom(vs: seq<IoVec<Byte>>, nleft: nat, size: nat) {
    0 < nleft <= |Concat(vs)| ==> |vs| - FirstUnsent(vs, |Concat(vs)| - nleft) <= size
  }

  lemma RoomStays(vs: seq<IoVec<Byte>>, before: nat, nleft: nat, size: nat)
    requires nleft <= before <= |Concat(vs)| && HasRoom(vs, before, size)
    ensures HasRoom(vs, nleft, size)
  {
    if 0 < nleft {
      FirstUnsentGrows(vs, |Concat(vs)| - before, |Concat(vs)| - nleft);
    }
  }

  /** After a partial write: the vectors that are left are copied, the first time
      to a new array. */
  method Rearrange(iov: array<IoVec<Byte>>, tmp: array<IoVec<Byte>>, nleft: nat) returns (tmp': array<IoVec<Byte>>, cnt: nat)
    requires 0 < nleft <= |Concat(iov[..])| && (tmp != iov ==> HasRoom(iov[..], nleft, tmp.Length))
    modifies if tmp == iov then {} else {tmp}
    ensures iov[..] == old(iov[..]) && cnt <= tmp'.Length
    ensures Concat(tmp'[..cnt]) == Concat(iov[..])[|Concat(iov[..])| - nleft..]
    ensures tmp' != iov && HasRoom(iov[..], nleft, tmp'.Length) && (if tmp == iov then fresh(tmp') else tmp' == tmp)
  {
    var nbyte := Total(iov);
    var index, n := FindUnsent(iov, nbyte - nleft);
    tmp' := tmp;
    if tmp == iov {
      tmp' := new IoVec<Byte>[if iov.Length - index <= LOCAL_MAXIOV then LOCAL_MAXIOV else iov.Length - index];
    }
    cnt := CopyRest(iov, tmp', index, n);
  }

  /** The total number of bytes. */
  method Total(iov: array<IoVec<Byte>>) returns (nbyte: nat)
    ensures nbyte == |Concat(iov[..])|
  {
    nbyte := 0;
    var i := 0;
    while i < iov.Length
      invariant 0 <= i <= iov.Length && nbyte == |Concat(iov[..i])|
    {
      assert iov[..i + 1] == iov[..i] + [iov[i]];
      ConcatSplit(iov[..i], [iov[i]]);
      ConcatOne(iov[i]);
      nbyte, i := nbyte + iov[i].len, i + 1;
    }
    assert iov[..i] == iov[..];
  }

  /** What has been sent so far is a prefix of the whole. */
  ghost predicate PrefixSent(accepted: seq<Byte>, base: seq<Byte>, vs: seq<IoVec<Byte>>) {
    exists n: nat :: n <= |Concat(vs)| && accepted == base + Concat(vs)[..n]
  }

  lemma SentMore(base: seq<Byte>, whole: seq<Byte>, done: nat, more: seq<Byte>, accepted: seq<Byte>)
    requires done <= |whole| && more <= whole[done..] && accepted == (base + whole[..done]) + more
    ensures done + |more| <= |whole| && accepted == base + whole[..done + |more|]
  {
    PrefixGrows(whole, done, |more|);
    Associates(base, whole[..done], more);
  }

  /** The call of `writev` on the vectors that are left. */
  method WriteRest(sock: Socket, rest: seq<IoVec<Byte>>, ghost base: seq<Byte>, ghost vs: seq<IoVec<Byte>>, ghost nleft: nat) returns (n: int)
    requires Writing(sock.accepted, base, vs, rest, nleft)
    modifies sock
    ensures n <= nleft && |Concat(rest)| == nleft
    ensures sock.accepted == base + Concat(vs)[..|Concat(vs)| - nleft + if n < 0 then 0 else n]
    ensures n >= 0 || sock.errno == EINTR || sock.errno == EAGAIN ==> |sock.replies| < |old(sock.replies)|
    ensures sock.broken == (old(sock.broken) || (n < 0 && sock.errno != EINTR && sock.errno != EAGAIN))
  {
    n := sock.Write(Concat(rest));
    if n >= 0 {
      SentMore(base, Concat(vs), |Concat(vs)| - nleft, Concat(rest)[..n], sock.accepted);
    } else {
      assert sock.accepted == old(sock.accepted);
    }
  }

  /** The last vector that is left goes through `st_write`. */
  method WriteLast(sock: Socket, last: IoVec<Byte>, nleft: nat, ghost base: seq<Byte>, ghost vs: seq<IoVec<Byte>>) returns (ok: bool)
    requires Writing(sock.accepted, base, vs, [last], nleft)
    modifies sock
    ensures PrefixSent(sock.accepted, base, vs) && (ok ==> sock.accepted == base + Concat(vs))
    ensures sock.broken == (old(sock.broken) || !ok)
  {
    ghost var before := sock.accepted;
    ConcatOne(last);
    var n := Write(sock, last);
    ghost var more := sock.accepted[|before|..];
    assert sock.accepted == before + more;
    SentMore(base, Concat(vs), |Concat(vs)| - nleft, more, sock.accepted);
    ok := n == nleft;
    assert ok ==> Concat(vs)[..|Concat(vs)|] == Concat(vs);
  }

  /** A loop goes on, ends well, or ends with an error. */
  datatype Turn = GoOn | Done | Broken

  ghost predicate Looping(turn: Turn, accepted: seq<Byte>, base: seq<Byte>, vs: seq<IoVec<Byte>>, rest: seq<IoVec<Byte>>, nleft: nat) {
    && (turn == GoOn ==> Writing(accepted, base, vs, rest, nleft))
    && (turn == Done ==> accepted == base + Concat(vs))
    && (turn == Broken ==> PrefixSent(accepted, base, vs))
  }

  /** One turn of the loop of `st_writev`. */
  method WritevTurn(sock: Socket, iov: array<IoVec<Byte>>, tmp: array<IoVec<Byte>>, cnt: nat, nleft: nat, ghost base: seq<Byte>)
      returns (turn: Turn, tmp': array<IoVec<Byte>>, cnt': nat, nleft': nat)
    requires cnt <= tmp.Length && 0 < nleft && Writing(sock.accepted, base, iov[..], tmp[..cnt], nleft)
    requires tmp != iov ==> HasRoom(iov[..], nleft, tmp.Length)
    modifies sock, if tmp == iov then {} else {tmp}
    ensures iov[..] == old(iov[..]) && cnt' <= tmp'.Length && (tmp' == tmp || fresh(tmp'))
    ensures Looping(turn, sock.accepted, base, iov[..], tmp'[..cnt'], nleft')
    ensures turn == GoOn && tmp' != iov ==> HasRoom(iov[..], nleft', tmp'.Length)
    ensures turn == GoOn ==> |sock.replies| < |old(sock.replies)|
    ensures sock.broken == (old(sock.broken) || turn == Broken)
  {
    tmp', cnt', nleft' := tmp, cnt, nleft;
    if cnt == 1 {
      assert tmp[..1] == [tmp[0]];
      var ok := WriteLast(sock, tmp[0], nleft, base, iov[..]);
      return if ok then Done else Broken, tmp', cnt', nleft';
    }
    var n := WriteRest(sock, tmp[..cnt], base, iov[..], nleft);
    if n < 0 {
      if sock.errno == EINTR {
        return GoOn, tmp', cnt', nleft';
      }
      WritingIsPrefix(sock.accepted, base, iov[..], tmp[..cnt], nleft);
      if sock.errno != EAGAIN {
        return Broken, tmp', cnt', nleft';
      }
    } else {
      if n == nleft {
        assert Concat(iov[..])[..|Concat(iov[..])|] == Concat(iov[..]);
        return Done, tmp', cnt', nleft';
      }
      nleft' := nleft - n;
      tmp', cnt' := DropSent(iov, tmp, nleft, nleft', sock.accepted, base);
    }
    var ok := sock.WaitWritable();
    turn := if ok then GoOn else Broken;
  }

  /** The vectors that are left after some more bytes have been sent. */
  method DropSent(iov: array<IoVec<Byte>>, tmp: array<IoVec<Byte>>, nleft: nat, nleft': nat, ghost accepted: seq<Byte>, ghost base: seq<Byte>)
      returns (tmp': array<IoVec<Byte>>, cnt': nat)
    requires 0 < nleft' <= nleft <= |Concat(iov[..])| && (tmp != iov ==> HasRoom(iov[..], nleft, tmp.Length))
    requires accepted == base + Concat(iov[..])[..|Concat(iov[..])| - nleft']
    modifies if tmp == iov then {} else {tmp}
    ensures iov[..] == old(iov[..]) && cnt' <= tmp'.Length && (tmp' == tmp || fresh(tmp'))
    ensures HasRoom(iov[..], nleft', tmp'.Length)
    ensures Writing(accepted, base, iov[..], tmp'[..cnt'], nleft') && PrefixSent(accepted, base, iov[..])
  {
    if tmp != iov {
      RoomStays(iov[..], nleft, nleft', tmp.Length);
    }
    tmp', cnt' := Rearrange(iov, tmp, nleft');
    WritingIsPrefix(accepted, base, iov[..], tmp'[..cnt'], nleft');
  }

  lemma WritingIsPrefix(accepted: seq<Byte>, base: seq<Byte>, vs: seq<IoVec<Byte>>, rest: seq<IoVec<Byte>>, nleft: nat)
    requires Writing(accepted, base, vs, rest, nleft)
    ensures PrefixSent(accepted, base, vs)
  {
    var n: nat := |Concat(vs)| - nleft;
    assert accepted == base + Concat(vs)[..n];
  }

  lemma NothingSent(accepted: seq<Byte>, vs: seq<IoVec<Byte>>)
    ensures Writing(accepted, accepted, vs, vs, |Concat(vs)|)
  {
  }

  lemma NothingLeft(accepted: seq<Byte>, base: seq<Byte>, vs: seq<IoVec<Byte>>, rest: seq<IoVec<Byte>>)
    requires Writing(accepted, base, vs, rest, 0)
    ensures accepted == base + Concat(vs)
  {
    assert Concat(vs)[..|Concat(vs)|] == Concat(vs);
  }

  /** `st_writev`: the bytes accepted are a prefix of the vectors' bytes in order,
      and all of them when the result is their number, which it is unless a write or a
      wait fails for good. */
  method Writev(sock: Socket, iov: array<IoVec<Byte>>) returns (rv: int)
    modifies sock
    ensures rv == -1 || rv == |Concat(iov[..])|
    ensures if rv == -1 then PrefixSent(sock.accepted, old(sock.accepted), iov[..])
            else sock.accepted == old(sock.accepted) + Concat(iov[..])
    ensures sock.broken == (old(sock.broken) || rv == -1)
  {
    ghost var base, vs := sock.accepted, iov[..];
    var nbyte := Total(iov);
    var nleft: nat, tmp, cnt: nat := nbyte, iov, iov.Length;
    assert tmp[..cnt] == vs;
    NothingSent(base, vs);
    var turn := GoOn;
    while nleft > 0 && turn == GoOn
      invariant iov[..] == vs && cnt <= tmp.Length && (tmp == iov || fresh(tmp))
      invariant Looping(turn, sock.accepted, base, vs, tmp[..cnt], nleft)
      invariant sock.broken == (old(sock.broken) || turn == Broken)
      invariant turn == GoOn && tmp != iov ==> HasRoom(vs, nleft, tmp.Length)
      decreases turn == GoOn, |sock.replies|
    {
      turn, tmp, cnt, nleft := WritevTurn(sock, iov, tmp, cnt, nleft, base);
    }
    if turn == GoOn {
      NothingLeft(sock.accepted, base, vs, tmp[..cnt]);
    }
    rv := if turn == Broken then -1 else nbyte;
  }
}
