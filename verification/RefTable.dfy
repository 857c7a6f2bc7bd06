/** The reference table of FrameWork/CommonUtilitiesLib-linux-windows/OSRef.cpp on
    the chained hash table of OSHashTable.h.  Every method runs under the table's
    mutex and is atomic. */
module RefTable {
  import opened HashIndex
  import opened MachineTypes
  import opened SeqFacts

  type Key = seq<Byte>

  class Ref {
    const key: Key                     // fString
    const hashValue: nat
    var refCount: nat
    var next: Ref?                     // fNextHashEntry

    constructor (key: Key)
      ensures this.key == key && hashValue == HashString(key) && refCount == 0 && next == null
    {
      this.key, hashValue, refCount, next := key, HashString(key), 0, null;
    }
  }

  // ------------------------------------------------------------- chains of links

  /** Element `i` of a chain, or the null link at its end. */
  ghost function Node(chain: seq<Ref>, i: nat): Ref? {
    if i < |chain| then chain[i] else null
  }

  /** The links `succ` lead from `head` through `chain`. */
  ghost predicate Linked(head: Ref?, chain: seq<Ref>, succ: map<Ref, Ref?>) {
    && head == Node(chain, 0)
    && (forall i :: 0 <= i < |chain| ==> chain[i] in succ && succ[chain[i]] == Node(chain, i + 1))
    && (forall i, j :: 0 <= i < j < |chain| ==> chain[i] != chain[j])
  }

  /** The chain holds only references that belong to it. */
  ghost predicate Homes(chain: seq<Ref>, i: nat, refs: set<Ref>, home: map<Ref, nat>) {
    forall k :: 0 <= k < |chain| ==> chain[k] in refs && chain[k] in home && home[chain[k]] == i
  }

  ghost predicate AtHome(chains: seq<seq<Ref>>, r: Ref, home: map<Ref, nat>) {
    r in home && home[r] < |chains| && r in chains[home[r]]
  }

  ghost predicate ChainOk(head: Ref?, chain: seq<Ref>, i: nat, refs: set<Ref>, home: map<Ref, nat>, succ: map<Ref, Ref?>) {
    Linked(head, chain, succ) && Homes(chain, i, refs, home)
  }

  /** The structure of a table: the heads and contents of its chains, the references
      in it, the chain that each of them is on, and its link. */
  datatype Shape = Shape(heads: seq<Ref?>, chains: seq<seq<Ref>>, refs: set<Ref>, home: map<Ref, nat>, succ: map<Ref, Ref?>)

  /** Every reference is on the chain that is its home, and on no other. */
  ghost predicate Chained(s: Shape) {
    && |s.heads| == |s.chains|
    && (forall i :: 0 <= i < |s.chains| ==> ChainOk(s.heads[i], s.chains[i], i, s.refs, s.home, s.succ))
    && (forall r :: r in s.refs ==> AtHome(s.chains, r, s.home))
  }

  /** With `entry` in front of chain `at`. */
  ghost function With(s: Shape, entry: Ref, at: nat): Shape
    requires at < |s.heads| == |s.chains|
  {
    Shape(s.heads[at := entry], s.chains[at := [entry] + s.chains[at]], s.refs + {entry}, s.home[entry := at], s.succ[entry := s.heads[at]])
  }

  /** Without element `k` of chain `at`. */
  ghost function Less(s: Shape, at: nat, k: nat): Shape
    requires at < |s.heads| == |s.chains| && k < |s.chains[at]|
  {
    var chain := s.chains[at];
    Shape(if k == 0 then s.heads[at := Node(chain, 1)] else s.heads, s.chains[at := RemoveAt(chain, k)],
      s.refs - {chain[k]}, s.home, Bypassed(chain, k, s.succ))
  }

  /** A chain that a change does not concern. */
  lemma ChainAside(head: Ref?, chain: seq<Ref>, i: nat, refs: set<Ref>, home: map<Ref, nat>, succ: map<Ref, Ref?>,
                   refs': set<Ref>, home': map<Ref, nat>, succ': map<Ref, Ref?>)
    requires ChainOk(head, chain, i, refs, home, succ)
    requires forall r :: r in refs && r in home && home[r] == i ==> r in refs' && r in home' && home'[r] == i
    requires forall r :: r in refs && r in home && home[r] == i && r in succ ==> r in succ' && succ'[r] == succ[r]
    ensures ChainOk(head, chain, i, refs', home', succ')
  {
  }

  lemma LongerLinks(chain: seq<Ref>, succ: map<Ref, Ref?>, entry: Ref)
    requires Linked(Node(chain, 0), chain, succ) && entry !in chain
    ensures Linked(entry, [entry] + chain, succ[entry := Node(chain, 0)])
  {
    var c := [entry] + chain;
    forall k | 0 <= k < |c| ensures c[k] in succ[entry := Node(chain, 0)] && succ[entry := Node(chain, 0)][c[k]] == Node(c, k + 1) {
      assert Node(c, k + 1) == Node(chain, k);
      assert k > 0 ==> c[k] == chain[k - 1] && c[k] in chain;
    }
  }

  lemma LongerChain(chain: seq<Ref>, i: nat, refs: set<Ref>, home: map<Ref, nat>, succ: map<Ref, Ref?>, entry: Ref)
    requires ChainOk(Node(chain, 0), chain, i, refs, home, succ) && entry !in refs
    ensures ChainOk(entry, [entry] + chain, i, refs + {entry}, home[entry := i], succ[entry := Node(chain, 0)])
  {
    LongerLinks(chain, succ, entry);
    var c := [entry] + chain;
    assert forall k :: 0 < k < |c| ==> c[k] == chain[k - 1];
  }

  /** The links after element `k` of a chain has been bypassed. */
  ghost function Bypassed(chain: seq<Ref>, k: nat, succ: map<Ref, Ref?>): map<Ref, Ref?>
    requires k < |chain|
  {
    (if k == 0 then succ else succ[chain[k - 1] := Node(chain, k + 1)])[chain[k] := null]
  }

  lemma ShorterDistinct(chain: seq<Ref>, k: nat)
    requires k < |chain| && forall i, j :: 0 <= i < j < |chain| ==> chain[i] != chain[j]
    ensures forall i, j :: 0 <= i < j < |chain| - 1 ==> RemoveAt(chain, k)[i] != RemoveAt(chain, k)[j]
  {
    var c := RemoveAt(chain, k);
    assert forall j :: 0 <= j < |c| ==> c[j] == chain[if j < k then j else j + 1];
  }

  /** Element `j` of the shorter chain is linked to the one after it. */
  lemma ShorterLink(chain: seq<Ref>, succ: map<Ref, Ref?>, k: nat, j: nat)
    requires Linked(Node(chain, 0), chain, succ) && k < |chain| && j < |chain| - 1
    ensures RemoveAt(chain, k)[j] in Bypassed(chain, k, succ)
    ensures Bypassed(chain, k, succ)[RemoveAt(chain, k)[j]] == Node(RemoveAt(chain, k), j + 1)
  {
    var o := if j < k then j else j + 1;
    var c, next := RemoveAt(chain, k), if j + 1 < k then j + 1 else j + 2;
    assert c[j] == chain[o] && chain[o] != chain[k];
    assert k > 0 && o != k - 1 ==> chain[o] != chain[k - 1];
    assert j + 1 < |c| ==> c[j + 1] == chain[next];
    assert Node(c, j + 1) == Node(chain, next);
  }

  lemma ShorterLinks(chain: seq<Ref>, succ: map<Ref, Ref?>, k: nat)
    requires Linked(Node(chain, 0), chain, succ) && k < |chain|
    ensures Linked(if k == 0 then Node(chain, 1) else Node(chain, 0), RemoveAt(chain, k), Bypassed(chain, k, succ))
  {
    ShorterDistinct(chain, k);
    forall j | 0 <= j < |chain| - 1
      ensures RemoveAt(chain, k)[j] in Bypassed(chain, k, succ)
      ensures Bypassed(chain, k, succ)[RemoveAt(chain, k)[j]] == Node(RemoveAt(chain, k), j + 1)
    {
      ShorterLink(chain, succ, k, j);
    }
  }

  lemma ShorterChain(chain: seq<Ref>, i: nat, refs: set<Ref>, home: map<Ref, nat>, succ: map<Ref, Ref?>, k: nat)
    requires ChainOk(Node(chain, 0), chain, i, refs, home, succ) && k < |chain|
    ensures ChainOk(if k == 0 then Node(chain, 1) else Node(chain, 0), RemoveAt(chain, k), i, refs - {chain[k]}, home, Bypassed(chain, k, succ))
  {
    ShorterLinks(chain, succ, k);
    var c := RemoveAt(chain, k);
    assert forall j :: 0 <= j < |c| ==> c[j] == chain[if j < k then j else j + 1];
  }

  lemma StillOn(chain: seq<Ref>, k: nat, r: Ref)
    requires k < |chain| && r in chain && r != chain[k]
    ensures r in RemoveAt(chain, k)
  {
    var i :| 0 <= i < |chain| && chain[i] == r;
    assert RemoveAt(chain, k)[if i < k then i else i - 1] == r;
  }

  lemma ChainedWith(s: Shape, entry: Ref, at: nat)
    requires Chained(s) && entry !in s.refs && at < |s.chains|
    ensures Chained(With(s, entry, at))
  {
    var t := With(s, entry, at);
    forall i | 0 <= i < |t.chains| ensures ChainOk(t.heads[i], t.chains[i], i, t.refs, t.home, t.succ) {
      assert ChainOk(s.heads[i], s.chains[i], i, s.refs, s.home, s.succ);
      if i == at {
        LongerChain(s.chains[at], at, s.refs, s.home, s.succ, entry);
      } else {
        ChainAside(s.heads[i], s.chains[i], i, s.refs, s.home, s.succ, t.refs, t.home, t.succ);
      }
    }
    forall r | r in t.refs ensures AtHome(t.chains, r, t.home) {
      assert r != entry ==> AtHome(s.chains, r, s.home);
    }
  }

  lemma ChainedLess(s: Shape, at: nat, k: nat)
    requires Chained(s) && at < |s.chains| && k < |s.chains[at]|
    ensures Chained(Less(s, at, k))
  {
    var t, chain := Less(s, at, k), s.chains[at];
    assert ChainOk(s.heads[at], chain, at, s.refs, s.home, s.succ);
    forall i | 0 <= i < |t.chains| ensures ChainOk(t.heads[i], t.chains[i], i, t.refs, t.home, t.succ) {
      if i == at {
        ShorterChain(chain, at, s.refs, s.home, s.succ, k);
      } else {
        assert ChainOk(s.heads[i], s.chains[i], i, s.refs, s.home, s.succ);
        ChainAside(s.heads[i], s.chains[i], i, s.refs, s.home, s.succ, t.refs, t.home, t.succ);
      }
    }
    forall r | r in t.refs ensures AtHome(t.chains, r, t.home) {
      assert AtHome(s.chains, r, s.home);
      if s.home[r] == at {
        StillOn(chain, k, r);
      }
    }
  }

  lemma Lengthened(s: Shape, entry: Ref, at: nat) returns (t: Shape)
    requires Chained(s) && entry !in s.refs && at < |s.chains|
    ensures Chained(t) && |t.chains| == |s.chains| && t.home == s.home[entry := at] && t.heads == s.heads[at := entry]
    ensures t.refs == s.refs + {entry} && |t.refs| == |s.refs| + 1 && t.succ == s.succ[entry := s.heads[at]]
  {
    t := With(s, entry, at);
    ChainedWith(s, entry, at);
  }

  /** `t` is `s` with the links past `elem`, which is behind `last` on chain `at`. */
  ghost predicate LinksPast(s: Shape, t: Shape, at: nat, k: nat, elem: Ref, last: Ref?) {
    && at < |s.heads| == |s.chains| && k < |s.chains[at]| && elem == s.chains[at][k]
    && elem in s.refs && elem in s.succ && s.succ[elem] == Node(s.chains[at], k + 1)
    && (if k == 0 then last == null else last == s.chains[at][k - 1] && last in s.refs && last != elem)
    && t.heads == (if k == 0 then s.heads[at := Node(s.chains[at], 1)] else s.heads)
    && t.succ == Bypassed(s.chains[at], k, s.succ) && t.refs <= s.refs
  }

  lemma Shortened(s: Shape, at: nat, k: nat, elem: Ref, last: Ref?) returns (t: Shape)
    requires Chained(s) && at < |s.chains| && k < |s.chains[at]| && elem == s.chains[at][k]
    requires last == if k == 0 then null else s.chains[at][k - 1]
    ensures Chained(t) && |t.chains| == |s.chains| && t.home == s.home
    ensures t.refs == s.refs - {elem} && |t.refs| == |s.refs| - 1 && LinksPast(s, t, at, k, elem, last)
  {
    t := Less(s, at, k);
    ChainedLess(s, at, k);
    OnChain(s, at, k);
    if k > 0 {
      OnChain(s, at, k - 1);
    }
  }

  /** What a chain says about an element of it. */
  lemma OnChain(s: Shape, at: nat, k: nat)
    requires Chained(s) && at < |s.chains| && k < |s.chains[at]|
    ensures s.heads[at] == s.chains[at][0]
    ensures s.chains[at][k] in s.refs && s.chains[at][k] in s.succ && s.succ[s.chains[at][k]] == Node(s.chains[at], k + 1)
    ensures s.chains[at][k] in s.home && s.home[s.chains[at][k]] == at
    ensures forall j :: 0 <= j < |s.chains[at]| && j != k ==> s.chains[at][j] != s.chains[at][k]
  {
    assert ChainOk(s.heads[at], s.chains[at], at, s.refs, s.home, s.succ);
  }

  lemma HeadOfChain(s: Shape, at: nat)
    requires Chained(s) && at < |s.chains|
    ensures s.heads[at] == Node(s.chains[at], 0)
  {
    assert ChainOk(s.heads[at], s.chains[at], at, s.refs, s.home, s.succ);
  }

  lemma HomeChain(s: Shape, r: Ref)
    requires Chained(s) && r in s.refs
    ensures r in s.home && s.home[r] < |s.chains| && r in s.chains[s.home[r]]
  {
    assert AtHome(s.chains, r, s.home);
  }

  // ------------------------------------------------------------- the hash table

  /** `OSHashTable` for the references; `hash` is the key's own hash function and
      `index` is `ComputeIndex` for the size of the table. */
  class HashTable {
    const hash: Key -> nat
    const index: nat -> nat
    const table: array<Ref?>
    var numEntries: nat
    ghost var shape: Shape

    /** All references in the table. */
    ghost function Refs(): set<Ref>
      reads this
    {
      shape.refs
    }

    ghost predicate Hashed(s: Shape, r: Ref) {
      r.hashValue == hash(r.key) && r in s.home && s.home[r] == index(r.hashValue)
    }

    /** The links in memory are those of `s`. */
    ghost predicate Mirrors(s: Shape)
      reads table, s.refs`next
    {
      table[..] == s.heads && forall r :: r in s.refs ==> r in s.succ && r.next == s.succ[r]
    }

    /** The links in memory are those of a table of chains. */
    ghost predicate ListsAs(s: Shape)
      reads table, s.refs`next
    {
      |s.chains| == table.Length > 0 && Chained(s) && Mirrors(s)
    }

    ghost predicate Lists()
      reads this, table, shape.refs`next
    {
      ListsAs(shape) && numEntries == |shape.refs|
    }

    /** The table in memory has shape `s`, and each reference is on the chain that its
        key hashes to. */
    ghost predicate Represents(s: Shape)
      requires s == shape
      reads this, table, s.refs`next
    {
      Lists() && AllHashed(s) && Indexes()
    }

    ghost predicate AllHashed(s: Shape) {
      forall r :: r in s.refs ==> Hashed(s, r)
    }

    ghost predicate Indexes() {
      forall h: nat :: index(h) < table.Length
    }

    lemma HashedMore(s: Shape, t: Shape, entry: Ref)
      requires AllHashed(s) && entry.hashValue == hash(entry.key)
      requires t.refs == s.refs + {entry} && t.home == s.home[entry := index(entry.hashValue)]
      ensures AllHashed(t)
    {
      assert forall r :: r in t.refs && r != entry ==> Hashed(s, r);
    }

    lemma HashedLess(s: Shape, t: Shape)
      requires AllHashed(s) && t.refs <= s.refs && t.home == s.home
      ensures AllHashed(t)
    {
      assert forall r :: r in t.refs ==> Hashed(s, r);
    }

    ghost predicate Valid()
      reads this, table, shape.refs`next
    {
      forall s: Shape {:trigger Represents(s)} :: s == shape ==> Represents(s)
    }

    constructor (size: nat, hash: Key -> nat)
      requires size > 0
      ensures Valid() && Refs() == {} && fresh(table) && table.Length == size && this.hash == hash
      ensures forall h: nat :: this.index(h) == h % size
    {
      forall h: nat ensures ComputeIndex(h, size) == h % size < size {
        IndexIsModulo(h, size);
      }
      this.hash, this.index := hash, (h: nat) => ComputeIndex(h, size);
      table := new Ref?[size](_ => null);
      numEntries, shape := 0, Shape(seq(size, _ => null), seq(size, _ => []), {}, map[], map[]);
      new;
      assert Represents(shape);
    }

    /** The number of entries goes up or down, to that of the shape `t`. */
    method Count(change: int, ghost t: Shape)
      requires ListsAs(t) && numEntries + change == |t.refs|
      modifies this`numEntries, this`shape
      ensures Lists() && shape == t
    {
      numEntries := numEntries + change;
      shape := t;
    }

    /** The entry becomes the head of the chain `index`. */
    method Link(entry: Ref, index: nat)
      requires Lists() && entry !in Refs() && entry.next == null && index < table.Length
      modifies this`numEntries, this`shape, table, entry`next
      ensures Lists() && Refs() == old(Refs()) + {entry} && shape.home == old(shape.home)[entry := index]
    {
      ghost var t := Lengthened(shape, entry, index);
      entry.next := table[index];
      table[index] := entry;
      assert ListsAs(t);
      Count(1, t);
    }

    /** `Add`. */
    method Add(entry: Ref)
      requires Valid() && entry !in Refs() && entry.next == null && entry.hashValue == hash(entry.key)
      modifies this`numEntries, this`shape, table, entry`next
      ensures Valid() && Refs() == old(Refs()) + {entry}
    {
      assert Represents(shape);
      ghost var s := shape;
      Link(entry, index(entry.hashValue));
      HashedMore(s, shape, entry);
      assert Represents(shape);
    }

    /** `Map`: a reference with this key, if there is one. */
    method Map(key: Key) returns (r: Ref?)
      requires Valid()
      ensures r == null ==> forall x :: x in Refs() ==> x.key != key
      ensures r != null ==> r in Refs() && r.key == key
    {
      assert Represents(shape);
      var at := index(hash(key));
      ghost var chain, k := shape.chains[at], 0;
      HeadOfChain(shape, at);
      r := table[at];
      while r != null
        invariant 0 <= k <= |chain| && r == Node(chain, k)
        invariant forall j :: 0 <= j < k ==> chain[j].key != key
        decreases |chain| - k
      {
        OnChain(shape, at, k);
        if r.key == key {
          return;
        }
        r := r.next;
        k := k + 1;
      }
      forall x | x in Refs() ensures x.key != key {
        HomeChain(shape, x);
        assert Hashed(shape, x);
      }
    }

    /** `Remove`: the entry itself is unlinked if it is in the table; another entry
        with the same key stays. */
    method Remove(entry: Ref)
      requires Valid()
      modifies this`numEntries, this`shape, table, Refs()`next
      ensures Valid() && Refs() == old(Refs()) - {entry}
      ensures entry in old(Refs()) ==> entry.next == null
    {
      assert Represents(shape);
      var at := index(entry.hashValue);
      var elem, last, k := Find(entry, at);
      if elem != null {
        ghost var s := shape;
        Unlink(entry, last, at, k);
        HashedLess(s, shape);
        assert Represents(shape);
      } else {
        IsAtHome(entry);
      }
    }

    lemma IsAtHome(entry: Ref)
      requires Valid()
      ensures entry in Refs() ==>
        index(entry.hashValue) < |shape.chains| && entry in shape.chains[index(entry.hashValue)]
    {
      if entry in Refs() {
        assert Represents(shape);
        HomeChain(shape, entry);
        assert Hashed(shape, entry);
      }
    }

    /** The walk along chain `index` to the entry; `last` is the element before it. */
    method Find(entry: Ref, index: nat) returns (elem: Ref?, last: Ref?, ghost k: nat)
      requires Lists() && index < table.Length
      ensures elem == null ==> entry !in shape.chains[index]
      ensures elem != null ==> elem == entry && k < |shape.chains[index]| && elem == shape.chains[index][k]
      ensures elem != null ==> last == if k == 0 then null else shape.chains[index][k - 1]
    {
      ghost var chain := shape.chains[index];
      k := 0;
      HeadOfChain(shape, index);
      elem, last := table[index], null;
      while elem != null && elem != entry
        invariant 0 <= k <= |chain| && elem == Node(chain, k) && last == if k == 0 then null else chain[k - 1]
        invariant forall j :: 0 <= j < k ==> chain[j] != entry
        decreases |chain| - k
      {
        OnChain(shape, index, k);
        last := elem;
        elem := elem.next;
        k := k + 1;
      }
    }

    /** The links go past element `k` of the chain `index`; `last` is the one before it. */
    method Splice(elem: Ref, last: Ref?, index: nat, ghost k: nat, ghost t: Shape)
      requires Mirrors(shape) && index < table.Length && LinksPast(shape, t, index, k, elem, last)
      modifies table, Refs()`next
      ensures Mirrors(t) && elem.next == null
    {
      if last != null {
        last.next := elem.next;
      } else {
        table[index] := elem.next;
      }
      elem.next := null;
    }

    /** The links in memory become those of the shorter chain. */
    method Relink(elem: Ref, last: Ref?, index: nat, ghost k: nat) returns (ghost t: Shape)
      requires Lists() && index < table.Length && k < |shape.chains[index]| && elem == shape.chains[index][k]
      requires last == if k == 0 then null else shape.chains[index][k - 1]
      modifies table, Refs()`next
      ensures t.refs == Refs() - {elem} && |t.refs| == |Refs()| - 1 && t.home == shape.home
      ensures ListsAs(t) && elem.next == null
    {
      t := Shortened(shape, index, k, elem, last);
      Splice(elem, last, index, k, t);
    }

    /** Element `k` of the chain `index` is unlinked. */
    method Unlink(elem: Ref, last: Ref?, index: nat, ghost k: nat)
      requires Lists() && index < table.Length && k < |shape.chains[index]| && elem == shape.chains[index][k]
      requires last == if k == 0 then null else shape.chains[index][k - 1]
      modifies this`numEntries, this`shape, table, Refs()`next
      ensures Lists() && Refs() == old(Refs()) - {elem} && shape.home == old(shape.home) && elem.next == null
    {
      ghost var t := Relink(elem, last, index, k);
      Count(-1, t);
    }
  }

  // --------------------------------------------------------- the reference table

  datatype Errno = NoErr | EPERM

  /** The map leads to the references of the table, each under its own key. */
  ghost predicate MapOk(contents: map<Key, Ref>, refs: set<Ref>, known: set<Ref>, held: multiset<Ref>) {
    && (forall k :: k in contents ==> contents[k] in refs && contents[k].key == k)
    && (forall r :: r in refs ==> r in known && r.key in contents && contents[r.key] == r)
    && (forall r :: r in held ==> r in known)
  }

  lemma MapWith(contents: map<Key, Ref>, refs: set<Ref>, known: set<Ref>, held: multiset<Ref>, ref: Ref)
    requires MapOk(contents, refs, known, held) && ref.key !in contents
    ensures MapOk(contents[ref.key := ref], refs + {ref}, known + {ref}, held)
  {
  }

  /** The map without a reference; the key goes only if it leads to that one. */
  ghost function MapLess(contents: map<Key, Ref>, ref: Ref): map<Key, Ref> {
    if ref.key in contents && contents[ref.key] == ref then contents - {ref.key} else contents
  }

  lemma MapWithout(contents: map<Key, Ref>, refs: set<Ref>, known: set<Ref>, held: multiset<Ref>, ref: Ref)
    requires MapOk(contents, refs, known, held)
    ensures MapOk(MapLess(contents, ref), refs - {ref}, known, held)
  {
  }

  /** The counts and links of the references in memory. */
  ghost predicate Counted(known: set<Ref>, held: multiset<Ref>, refs: set<Ref>)
    reads known
  {
    forall r :: r in known ==> r.refCount == held[r] && (r !in refs ==> r.next == null)
  }

  // ------------------------------------------------- other threads, meanwhile

  /** What another thread does while it has the mutex. */
  datatype Other = Resolving(key: Key) | Releasing(ref: Ref)

  ghost function HeldAfter(contents: map<Key, Ref>, held: multiset<Ref>, o: Other): multiset<Ref> {
    match o
    case Resolving(key) => if key in contents then held + multiset{contents[key]} else held
    case Releasing(ref) => held - multiset{ref}
  }

  ghost function HeldAfterAll(contents: map<Key, Ref>, held: multiset<Ref>, os: seq<Other>): multiset<Ref>
    decreases |os|
  {
    if os == [] then held else HeldAfterAll(contents, HeldAfter(contents, held, os[0]), os[1..])
  }

  /** Only what is held is released. */
  ghost predicate MayRelease(contents: map<Key, Ref>, held: multiset<Ref>, os: seq<Other>)
    decreases |os|
  {
    os == [] || ((os[0].Releasing? ==> os[0].ref in held) && MayRelease(contents, HeldAfter(contents, held, os[0]), os[1..]))
  }

  /** In each wait only what is held is released; there are no more waits once the
      reference is held no more often than the threshold. */
  ghost predicate MayWait(contents: map<Key, Ref>, held: multiset<Ref>, waits: seq<seq<Other>>, ref: Ref, threshold: nat)
    decreases |waits|
  {
    held[ref] <= threshold || waits == []
    || (MayRelease(contents, held, waits[0]) && MayWait(contents, HeldAfterAll(contents, held, waits[0]), waits[1..], ref, threshold))
  }

  /** What is held after as many waits as it takes, or after all of them. */
  ghost function HeldAfterWaits(contents: map<Key, Ref>, held: multiset<Ref>, waits: seq<seq<Other>>, ref: Ref, threshold: nat): multiset<Ref>
    decreases |waits|
  {
    if held[ref] <= threshold || waits == [] then held
    else HeldAfterWaits(contents, HeldAfterAll(contents, held, waits[0]), waits[1..], ref, threshold)
  }

  class OSRefTable {
    const table: HashTable
    ghost var contents: map<Key, Ref>  // what a look-up finds
    ghost var known: set<Ref>          // all references that were ever registered
    ghost var held: multiset<Ref>      // resolved and not yet released

    /** The table refines a map with at most one reference per key, and the count of
        each reference is the number of its resolves less its releases. */
    ghost predicate Valid()
      reads this, table, table.table, table.shape.refs`next, known
    {
      table.Valid() && MapOk(contents, table.Refs(), known, held) && Counted(known, held, table.Refs())
    }

    constructor (size: nat)
      requires size > 0
      ensures Valid() && contents == map[] && known == {} && held == multiset{} && fresh(table) && fresh(table.table)
      ensures table.hash == HashString
    {
      table := new HashTable(size, HashString);
      contents, known, held := map[], {}, multiset{};
    }

    /** A reference that is ready to be registered: set up, not in use, in no table. */
    ghost predicate Ready(ref: Ref)
      reads this, table, ref
    {
      ref.refCount == 0 && ref !in held && ref.hashValue == table.hash(ref.key) && ref.next == null && ref !in table.Refs()
    }

    /** The reference goes into the table and the map. */
    method Enter(ref: Ref)
      requires Valid() && Ready(ref) && ref.key !in contents
      modifies this, table, table.table, ref`next
      ensures Valid() && contents == old(contents)[ref.key := ref] && held == old(held)
      ensures known == old(known) + {ref} && table.Refs() == old(table.Refs()) + {ref}
    {
      MapWith(contents, table.Refs(), known, held, ref);
      contents := contents[ref.key := ref];
      AddTo(ref);
    }

    method AddTo(ref: Ref)
      requires table.Valid() && Counted(known, held, table.Refs()) && Ready(ref)
      modifies this`known, table, table.table, ref`next
      ensures table.Valid() && table.Refs() == old(table.Refs()) + {ref}
      ensures known == old(known) + {ref} && Counted(known, held, table.Refs())
    {
      known := known + {ref};
      table.Add(ref);
    }

    /** `Register`: fails for an empty key and for a key that is in use. */
    method Register(ref: Ref) returns (err: Errno)
      requires Valid() && Ready(ref)
      modifies this, table, table.table, ref`next
      ensures Valid() && held == old(held)
      ensures err == NoErr <==> ref.key != [] && ref.key !in old(contents)
      ensures contents == if err == NoErr then old(contents)[ref.key := ref] else old(contents)
    {
      if ref.key == [] {
        return EPERM;
      }
      var duplicate := table.Map(ref.key);
      if duplicate != null {
        return EPERM;
      }
      Enter(ref);
      return NoErr;
    }

    /** `Resolve`: the reference of the key, if there is one, is held once more. */
    method Resolve(key: Key) returns (ref: Ref?)
      requires Valid()
      modifies this`held, table.Refs()`refCount
      ensures Valid() && contents == old(contents)
      ensures if key in contents then ref == contents[key] && held == old(held) + multiset{ref} else ref == null && held == old(held)
      ensures ref != null ==> ref.refCount == old(ref.refCount) + 1
    {
      ref := table.Map(key);
      if ref != null {
        ref.refCount := ref.refCount + 1;
        held := held + multiset{ref};
      }
    }

    /** `RegisterOrResolve`: null if the new reference was registered, else the one
        that has the key, held once more. */
    method RegisterOrResolve(ref: Ref) returns (other: Ref?)
      requires Valid() && Ready(ref)
      modifies this, table, table.table, table.Refs()`refCount, ref`next
      ensures Valid()
      ensures if ref.key in old(contents)
        then other == old(contents)[ref.key] && contents == old(contents) && held == old(held) + multiset{other}
        else other == null && contents == old(contents)[ref.key := ref] && held == old(held)
    {
      other := Resolve(ref.key);
      if other != null {
        return;
      }
      Enter(ref);
    }

    /** `Release`. */
    method Release(ref: Ref)
      requires Valid() && ref in held
      modifies this`held, ref`refCount
      ensures Valid() && contents == old(contents) && held == old(held) - multiset{ref}
      ensures ref.refCount == old(ref.refCount) - 1
    {
      ref.refCount := ref.refCount - 1;
      held := held - multiset{ref};
    }

    /** Removal by identity: the map loses the key only if it led to this reference. */
    method TakeOut(ref: Ref)
      requires Valid() && ref in known
      modifies this`contents, table, table.table, table.Refs()`next
      ensures Valid() && held == old(held) && ref !in table.Refs() && ref.next == null
      ensures contents == MapLess(old(contents), ref) && table.Refs() == old(table.Refs()) - {ref}
    {
      MapWithout(contents, table.Refs(), known, held, ref);
      contents := MapLess(contents, ref);
      RemoveFrom(ref);
    }

    method RemoveFrom(ref: Ref)
      requires table.Valid() && Counted(known, held, table.Refs()) && ref in known && table.Refs() <= known
      modifies table, table.table, table.Refs()`next
      ensures table.Valid() && table.Refs() == old(table.Refs()) - {ref}
      ensures Counted(known, held, table.Refs()) && ref.next == null
    {
      table.Remove(ref);
    }

    /** Other threads resolve and release, one after the other. */
    method OthersRun(os: seq<Other>)
      requires Valid() && MayRelease(contents, held, os)
      modifies this`held, known`refCount
      ensures Valid() && held == HeldAfterAll(contents, old(held), os)
      decreases |os|
    {
      if os != [] {
        OtherRuns(os[0]);
        OthersRun(os[1..]);
      }
    }

    method OtherRuns(o: Other)
      requires Valid() && (o.Releasing? ==> o.ref in held)
      modifies this`held, known`refCount
      ensures Valid() && held == HeldAfter(contents, old(held), o)
    {
      match o
      case Resolving(key) => var ref := Resolve(key);
      case Releasing(ref) => Release(ref);
    }

    /** The loop of `UnRegister`. */
    method WaitUntilFree(ref: Ref, threshold: nat, waits: seq<seq<Other>>) returns (busy: bool)
      requires Valid() && ref in known && MayWait(contents, held, waits, ref, threshold)
      modifies this`held, known`refCount
      ensures Valid() && held == HeldAfterWaits(contents, old(held), waits, ref, threshold)
      ensures busy <==> held[ref] > threshold
    {
      var n := 0;
      ghost var goal := HeldAfterWaits(contents, held, waits, ref, threshold);
      assert waits[0..] == waits;
      busy := InUse(ref, threshold);
      while busy && n < |waits|
        invariant 0 <= n <= |waits| && Valid() && (busy <==> held[ref] > threshold)
        invariant MayWait(contents, held, waits[n..], ref, threshold)
        invariant HeldAfterWaits(contents, held, waits[n..], ref, threshold) == goal
      {
        DropDrop(waits, n, 1);
        WaitOnce(ref, threshold, waits[n..]);
        n := n + 1;
        busy := InUse(ref, threshold);
      }
    }

    /** The first one of the waits that are left. */
    method WaitOnce(ref: Ref, threshold: nat, waits: seq<seq<Other>>)
      requires Valid() && waits != [] && held[ref] > threshold && MayWait(contents, held, waits, ref, threshold)
      modifies this`held, known`refCount
      ensures Valid() && MayWait(contents, held, waits[1..], ref, threshold)
      ensures HeldAfterWaits(contents, held, waits[1..], ref, threshold) == HeldAfterWaits(contents, old(held), waits, ref, threshold)
    {
      OthersRun(waits[0]);
    }

    method InUse(ref: Ref, threshold: nat) returns (busy: bool)
      requires Valid() && ref in known
      ensures busy <==> held[ref] > threshold
    {
      busy := ref.refCount > threshold;
    }

    /** `UnRegister`: as long as the reference is held more often than the threshold it
        waits on the condition variable, and in each wait other threads do what `waits`
        says.  It is done after the first wait that brings the count down to the
        threshold, and then the reference is out of the table; a reference that was
        displaced by `Swap` leaves its replacement in place.  Otherwise it still waits. */
    method UnRegister(ref: Ref, threshold: nat, waits: seq<seq<Other>>) returns (done: bool)
      requires Valid() && ref in known && MayWait(contents, held, waits, ref, threshold)
      modifies this`held, this`contents, known`refCount, table, table.table, table.Refs()`next
      ensures Valid() && held == HeldAfterWaits(old(contents), old(held), waits, ref, threshold)
      ensures done <==> held[ref] <= threshold
      ensures if done then ref !in table.Refs() && contents == MapLess(old(contents), ref) else contents == old(contents)
    {
      var busy := WaitUntilFree(ref, threshold, waits);
      done := !busy;
      if done {
        TakeOut(ref);
      }
    }

    /** `TryUnRegister`: as `UnRegister`, but it does not wait. */
    method TryUnRegister(ref: Ref, threshold: nat) returns (ok: bool)
      requires Valid() && ref in known
      modifies this`held, this`contents, known`refCount, table, table.table, table.Refs()`next
      ensures Valid() && held == old(held)
      ensures ok <==> held[ref] <= threshold
      ensures contents == if ok then MapLess(old(contents), ref) else old(contents)
    {
      if ref.refCount > threshold {
        return false;
      }
      ok := UnRegister(ref, threshold, []);
    }

    /** `Swap`: the reference that has the key is replaced; it stays known, and held
        as often as it was. */
    method Swap(ref: Ref)
      requires Valid() && Ready(ref)
      modifies this, table, table.table, table.Refs()`next, ref`next
      ensures Valid() && held == old(held)
      ensures contents == if ref.key in old(contents) then old(contents)[ref.key := ref] else old(contents)
      ensures ref.key in old(contents) ==> old(contents)[ref.key] in known && old(contents)[ref.key] !in table.Refs()
    {
      var other := table.Map(ref.key);
      if other != null {
        Replace(other, ref);
      }
    }

    method Replace(other: Ref, ref: Ref)
      requires Valid() && Ready(ref) && other in table.Refs() && other.key == ref.key
      modifies this, table, table.table, table.Refs()`next, ref`next
      ensures Valid() && held == old(held)
      ensures other == old(contents)[ref.key] && contents == old(contents)[ref.key := ref]
      ensures other in known && other !in table.Refs()
    {
      TakeOut(other);
      assert contents == old(contents) - {ref.key};
      Enter(ref);
    }
  }
}
