/** The read loop of state-threads/io.c, `st_readv_resid`: the incoming bytes go to the
    addresses of the vectors in order. */
module VectorRead {
  import opened MachineTypes
  import opened SeqFacts
  import opened VectorIO

  type Address = int

  /** The memory after `bytes` are stored at the first of the addresses `at`, in order. */
  function Store(memory: map<Address, Byte>, at: seq<Address>, bytes: seq<Byte>): map<Address, Byte>
    requires |bytes| <= |at|
    decreases |bytes|
  {
    if bytes == [] then memory else Store(memory[at[0] := bytes[0]], at[1..], bytes[1..])
  }

  lemma {:induction false} StoreConcat(memory: map<Address, Byte>, at: seq<Address>, first: seq<Byte>, more: seq<Byte>)
    requires |first| + |more| <= |at|
    ensures Store(memory, at, first + more) == Store(Store(memory, at, first), at[|first|..], more)
    decreases |first|
  {
    if first == [] {
      assert first + more == more && at[0..] == at;
    } else {
      assert (first + more)[1..] == first[1..] + more;
      assert at[1..][|first| - 1..] == at[|first|..];
      StoreConcat(memory[at[0] := first[0]], at[1..], first[1..], more);
    }
  }

  /** With distinct addresses each byte is found at its address, and nothing else
      changes. */
  lemma {:induction false} StoredAt(memory: map<Address, Byte>, at: seq<Address>, bytes: seq<Byte>)
    requires |bytes| <= |at| && forall i, j :: 0 <= i < j < |at| ==> at[i] != at[j]
    ensures var after := Store(memory, at, bytes);
      && (forall i :: 0 <= i < |bytes| ==> at[i] in after && after[at[i]] == bytes[i])
      && (forall a :: a !in at[..|bytes|] ==> (a in after <==> a in memory) && (a in memory ==> after[a] == memory[a]))
    decreases |bytes|
  {
    if bytes != [] {
      var next := memory[at[0] := bytes[0]];
      assert forall a :: a in at[..|bytes|] <==> a == at[0] || a in at[1..][..|bytes| - 1];
      StoredAt(next, at[1..], bytes[1..]);
    }
  }

  /** A socket that is read, with the bytes that arrive before the end of the stream,
      and what the kernel will answer. */
  class Source {
    var incoming: seq<Byte>
    var replies: seq<Reply>
    var polls: seq<bool>
    var errno: Errno
    var memory: map<Address, Byte>
    ghost var broken: bool             // a read or a wait has failed for good

    constructor (incoming: seq<Byte>, replies: seq<Reply>, polls: seq<bool>, memory: map<Address, Byte>)
      ensures this.incoming == incoming && this.memory == memory && !broken
    {
      this.incoming, this.replies, this.polls, errno, this.memory := incoming, replies, polls, NONE, memory;
      broken := false;
    }

    /** `read` and `readv`: some of the incoming bytes are stored; none if there is
        no room or nothing comes any more. */
    method Read(at: seq<Address>) returns (n: int)
      modifies this
      ensures n <= |at| && n <= |old(incoming)|
      ensures incoming == old(incoming)[if n < 0 then 0 else n..]
      ensures memory == if n < 0 then old(memory) else Store(old(memory), at, old(incoming)[..n])
      ensures n == 0 ==> at == [] || incoming == []
      ensures n > 0 || (n < 0 && (errno == EINTR || errno == EAGAIN)) ==> |replies| < |old(replies)|
      ensures polls == old(polls) && broken == (old(broken) || (n < 0 && errno != EINTR && errno != EAGAIN))
    {
      var reply := if replies == [] then Error else replies[0];
      replies := if replies == [] then [] else replies[1..];
      match reply
      case Accept(k) =>
        var most := if |at| < |incoming| then |at| else |incoming|;
        n := if 0 < k < most then k else most;
        memory := Store(memory, at, incoming[..n]);
        incoming := incoming[n..];
      case Interrupted => n, errno := -1, EINTR;
      case WouldBlock => n, errno := -1, EAGAIN;
      case Error => n, errno, broken := -1, EPIPE, true;
    }

    /** `st_netfd_poll`. */
    method WaitReadable() returns (ok: bool)
      modifies this`polls, this`broken
      ensures broken == (old(broken) || !ok)
    {
      ok := polls != [] && polls[0];
      polls, broken := if polls == [] then [] else polls[1..], broken || !ok;
    }
  }

  /** The first `n` of the bytes `stream` have been stored at the first `n` of the
      addresses `whole`; `rest` describes the other addresses. */
  ghost predicate Stored(src: Source, rest: seq<Address>, stream: seq<Byte>, whole: seq<Address>, memory: map<Address, Byte>, n: nat)
    reads src
  {
    && n <= |stream| && n <= |whole|
    && src.incoming == stream[n..] && rest == whole[n..]
    && src.memory == Store(memory, whole, stream[..n])
  }

  /** The call of `read` (for one vector) or `readv`. */
  method ReadOnce(src: Source, iov: array<IoVec<Address>>, pos: nat, ghost stream: seq<Byte>, ghost whole: seq<Address>,
                  ghost memory: map<Address, Byte>, ghost done: nat) returns (n: int)
    requires pos < iov.Length && Stored(src, Concat(iov[pos..]), stream, whole, memory, done)
    modifies src
    ensures n <= |Concat(iov[pos..])|
    ensures if n <= 0 then Stored(src, Concat(iov[pos..]), stream, whole, memory, done)
            else Stored(src, Concat(iov[pos..])[n..], stream, whole, memory, done + n)
    ensures n == 0 ==> Concat(iov[pos..]) == [] || src.incoming == []
    ensures n > 0 || (n < 0 && (src.errno == EINTR || src.errno == EAGAIN)) ==> |src.replies| < |old(src.replies)|
    ensures src.broken == (old(src.broken) || (n < 0 && src.errno != EINTR && src.errno != EAGAIN))
  {
    ghost var rest, before := Concat(iov[pos..]), src.incoming;
    if iov.Length - pos == 1 {
      assert iov[pos..] == [iov[pos]];
      ConcatOne(iov[pos]);
      n := src.Read(Elements(iov[pos]));
    } else {
      n := src.Read(Concat(iov[pos..]));
    }
    if n >= 0 {
      PrefixGrows(stream, done, n);
      StoreConcat(memory, whole, stream[..done], before[..n]);
      DropDrop(stream, done, n);
      DropDrop(whole, done, n);
    }
  }

  /** One read, and the advance over what it filled. */
  method ReadStep(src: Source, iov: array<IoVec<Address>>, pos: nat, ghost stream: seq<Byte>, ghost whole: seq<Address>,
                  ghost memory: map<Address, Byte>, ghost done: nat) returns (n: int, pos': nat, ghost done': nat)
    requires pos < iov.Length && Stored(src, Concat(iov[pos..]), stream, whole, memory, done)
    modifies src, iov
    ensures pos <= pos' <= iov.Length && Stored(src, Concat(iov[pos'..]), stream, whole, memory, done')
    ensures forall i :: 0 <= i < pos ==> iov[i] == old(iov[i])
    ensures forall i :: pos <= i < iov.Length ==> Suffix(old(iov[i]), iov[i]) && (i < pos' ==> iov[i].len == 0)
    ensures n == 0 ==> Concat(iov[pos'..]) == [] || src.incoming == []
    ensures n > 0 || (n < 0 && (src.errno == EINTR || src.errno == EAGAIN)) ==> |src.replies| < |old(src.replies)|
    ensures src.broken == (old(src.broken) || (n < 0 && src.errno != EINTR && src.errno != EAGAIN))
  {
    n := ReadOnce(src, iov, pos, stream, whole, memory, done);
    pos', done' := pos, done;
    if n > 0 {
      pos' := Advance(iov, pos, n);
      done' := done + n;
    }
  }

  /** One turn of the loop of `st_readv_resid`. */
  method ReadTurn(src: Source, iov: array<IoVec<Address>>, pos: nat, ghost stream: seq<Byte>, ghost whole: seq<Address>,
                  ghost memory: map<Address, Byte>, ghost done: nat) returns (turn: Turn, pos': nat, ghost done': nat)
    requires pos < iov.Length && Stored(src, Concat(iov[pos..]), stream, whole, memory, done)
    modifies src, iov
    ensures pos <= pos' <= iov.Length && Stored(src, Concat(iov[pos'..]), stream, whole, memory, done')
    ensures forall i :: 0 <= i < pos ==> iov[i] == old(iov[i])
    ensures forall i :: pos <= i < iov.Length ==> Suffix(old(iov[i]), iov[i]) && (i < pos' ==> iov[i].len == 0)
    ensures turn.GoOn? ==> |src.replies| < |old(src.replies)|
    ensures turn.Done? ==> Concat(iov[pos'..]) == [] || src.incoming == []
    ensures src.broken == (old(src.broken) || turn.Broken?)
  {
    var n;
    n, pos', done' := ReadStep(src, iov, pos, stream, whole, memory, done);
    if n < 0 {
      if src.errno == EINTR {
        return GoOn, pos', done';
      }
      if src.errno != EAGAIN {
        return Broken, pos', done';
      }
    } else if n == 0 || pos' == iov.Length {
      return Done, pos', done';
    }
    var ok := src.WaitReadable();
    turn := if ok then GoOn else Broken;
  }

  /** `st_readv_resid`: the bytes read are in place, in order; the vectors from `pos` on
      describe exactly the addresses not yet filled. Success means that all of them are
      filled or that the stream has ended; it fails only if a read or a wait fails for
      good. */
  method ReadvResid(src: Source, iov: array<IoVec<Address>>) returns (rv: int, pos: nat, ghost got: nat)
    modifies src, iov
    ensures pos <= iov.Length && Shrunk(iov, pos)
    ensures Stored(src, Concat(iov[pos..]), old(src.incoming), old(Concat(iov[..])), old(src.memory), got)
    ensures rv == -1 || (rv == 0 && (Concat(iov[pos..]) == [] || src.incoming == []))
    ensures src.broken == (old(src.broken) || rv == -1)
  {
    pos, got := 0, 0;
    ghost var stream, whole, memory := src.incoming, Concat(iov[..]), src.memory;
    assert iov[0..] == iov[..] && stream[0..] == stream && whole[0..] == whole;
    var turn := GoOn;
    while pos < iov.Length && turn.GoOn?
      invariant pos <= iov.Length && Shrunk(iov, pos)
      invariant Stored(src, Concat(iov[pos..]), stream, whole, memory, got)
      invariant turn.Done? ==> Concat(iov[pos..]) == [] || src.incoming == []
      invariant src.broken == (old(src.broken) || turn.Broken?)
      decreases turn.GoOn?, |src.replies|
    {
      turn, pos, got := ReadTurn(src, iov, pos, stream, whole, memory, got);
    }
    rv := if turn.Broken? then -1 else 0;
  }

  /** `st_read_resid`: what is left of the buffer is what has not been filled. */
  method ReadResid(src: Source, data: IoVec<Address>) returns (rv: int, resid: nat, ghost got: nat)
    modifies src
    ensures resid == data.len - got && got <= data.len && got <= |old(src.incoming)|
    ensures src.memory == Store(old(src.memory), Elements(data), old(src.incoming)[..got])
    ensures src.incoming == old(src.incoming)[got..]
    ensures rv == -1 || (rv == 0 && (resid == 0 || src.incoming == []))
    ensures src.broken == (old(src.broken) || rv == -1)
  {
    var iov := new IoVec<Address>[1](_ => data);
    ConcatOne(data);
    assert iov[..] == [data];
    var pos;
    rv, pos, got := ReadvResid(src, iov);
    resid := iov[0].len;
    ConcatOne(iov[0]);
    assert iov[pos..] == if pos == 0 then [iov[0]] else [];
    assert |Concat(iov[pos..])| == resid;
  }
}
