/** The expiration tracker of the JWT directory store: a min-heap by expiration,
    an index by key, a least-recently-used list and an XOR digest, all of which
    are updated in place and must agree.

    The source keeps pointers to items in the heap, the index and the list. Here
    a key stands for the pointer to its item, and the index holds the item. */
module ExpirationTracking {
  import opened ExpiryHeap
  import opened Int64

  /** A SHA-256 digest: 32 bytes. */
  const SIZE := 32
  type Digest = d: seq<bv8> | |d| == SIZE witness seq(SIZE, _ => 0 as bv8)

  const ZERO: Digest := seq(SIZE, _ => 0 as bv8)

  function Xor(a: Digest, b: Digest): Digest {
    seq(SIZE, i requires 0 <= i < SIZE => a[i] ^ b[i])
  }

  lemma XorByte(a: bv8, b: bv8, c: bv8)
    ensures a ^ b == b ^ a && (a ^ b) ^ c == a ^ (b ^ c) && a ^ 0 == a && a ^ a == 0 && (a ^ b) ^ b == a
  {
  }

  lemma XorLaws(a: Digest, b: Digest, c: Digest)
    ensures Xor(a, b) == Xor(b, a) && Xor(Xor(a, b), c) == Xor(a, Xor(b, c))
    ensures Xor(a, ZERO) == a && Xor(a, a) == ZERO && Xor(Xor(a, b), b) == a
  {
    forall i | 0 <= i < SIZE
      ensures a[i] ^ b[i] == b[i] ^ a[i] && (a[i] ^ b[i]) ^ c[i] == a[i] ^ (b[i] ^ c[i])
      ensures a[i] ^ 0 == a[i] && a[i] ^ a[i] == 0 && (a[i] ^ b[i]) ^ b[i] == a[i]
    {
      XorByte(a[i], b[i], c[i]);
    }
  }

  /** `xorAssign`, byte by byte. */
  method XorAssign(l: Digest, r: Digest) returns (x: Digest)
    ensures x == Xor(l, r)
  {
    x := l;
    for i := 0 to SIZE
      invariant forall k :: 0 <= k < i ==> x[k] == l[k] ^ r[k]
      invariant forall k :: i <= k < SIZE ==> x[k] == l[k]
    {
      x := x[i := x[i] ^ r[i]];
    }
  }

  const NANOS := 1_000_000_000

  datatype JwtItem = JwtItem(index: int, expiration: int, hash: Digest)

  /** What a key is tracked with. */
  datatype Entry = Entry(expiration: int, hash: Digest)

  function Entries(idx: map<string, JwtItem>): map<string, Entry> {
    map k | k in idx :: Entry(idx[k].expiration, idx[k].hash)
  }

  // ---------- Digests ----------

  /** The XOR of the hashes of all entries, from scratch. */
  ghost function Recomputed(m: map<string, Entry>): Digest
    decreases |m|
  {
    if m == map[] then ZERO
    else
      var k :| k in m;
      Xor(m[k].hash, Recomputed(m - {k}))
  }

  /** The XOR does not depend on which entry is taken first. */
  lemma {:induction false} RecomputedWithout(m: map<string, Entry>, k: string)
    requires k in m
    ensures Recomputed(m) == Xor(m[k].hash, Recomputed(m - {k}))
    decreases |m|
  {
    hide Xor;
    var first :| first in m && Recomputed(m) == Xor(m[first].hash, Recomputed(m - {first}));
    if first != k {
      var rest := m - {first, k};
      RecomputedWithout(m - {first}, k);
      RecomputedWithout(m - {k}, first);
      assert m - {first} - {k} == rest && m - {k} - {first} == rest;
      XorLaws(m[first].hash, m[k].hash, Recomputed(rest));
      XorLaws(m[k].hash, m[first].hash, Recomputed(rest));
    }
  }

  lemma RecomputedAdd(m: map<string, Entry>, k: string, e: Entry)
    requires k !in m
    ensures Recomputed(m[k := e]) == Xor(e.hash, Recomputed(m))
  {
    RecomputedWithout(m[k := e], k);
    assert m[k := e] - {k} == m;
  }

  lemma RecomputedReplace(m: map<string, Entry>, k: string, e: Entry)
    requires k in m
    ensures Recomputed(m[k := e]) == Xor(Xor(Recomputed(m), m[k].hash), e.hash)
  {
    hide Xor;
    RecomputedWithout(m, k);
    RecomputedWithout(m[k := e], k);
    assert m[k := e] - {k} == m - {k};
    XorLaws(m[k].hash, Recomputed(m - {k}), e.hash);
    XorLaws(Recomputed(m - {k}), m[k].hash, e.hash);
    XorLaws(e.hash, Recomputed(m - {k}), ZERO);
  }

  lemma RecomputedRemove(m: map<string, Entry>, k: string)
    requires k in m
    ensures Recomputed(m - {k}) == Xor(Recomputed(m), m[k].hash)
  {
    hide Xor;
    RecomputedWithout(m, k);
    XorLaws(m[k].hash, Recomputed(m - {k}), ZERO);
    XorLaws(Recomputed(m - {k}), m[k].hash, ZERO);
  }

  // ---------- The structures ----------

  /** Heap and index hold the same keys, each once, and every item knows its
      place in the heap. */
  ghost predicate Indexed(heap: seq<string>, idx: map<string, JwtItem>) {
    && (forall i :: 0 <= i < |heap| ==> heap[i] in idx && idx[heap[i]].index == i)
    && (forall k :: k in idx ==> 0 <= idx[k].index < |heap| && heap[idx[k].index] == k)
  }

  predicate Distinct(s: seq<string>) {
    forall i, j :: 0 <= i < j < |s| ==> s[i] != s[j]
  }

  /** The list holds the keys of the index, each once. */
  ghost predicate Listed(lru: seq<string>, idx: map<string, JwtItem>) {
    Distinct(lru) && forall k :: k in lru <==> k in idx
  }

  ghost function Expirations(heap: seq<string>, idx: map<string, JwtItem>): seq<int>
    requires forall i :: 0 <= i < |heap| ==> heap[i] in idx
  {
    seq(|heap|, i requires 0 <= i < |heap| => idx[heap[i]].expiration)
  }

  ghost predicate MinHeap(heap: seq<string>, idx: map<string, JwtItem>) {
    Indexed(heap, idx) && Ordered(Expirations(heap, idx), |heap|)
  }

  /** The index after the items at `i` and `j` changed places. */
  function SwappedIndex(heap: seq<string>, idx: map<string, JwtItem>, i: nat, j: nat): map<string, JwtItem>
    requires i < |heap| && j < |heap| && heap[i] in idx && heap[j] in idx
  {
    var moved := idx[heap[j] := idx[heap[j]].(index := i)];
    moved[heap[i] := moved[heap[i]].(index := j)]
  }

  lemma SwapKeeps(heap: seq<string>, idx: map<string, JwtItem>, i: nat, j: nat)
    requires Indexed(heap, idx) && i < |heap| && j < |heap|
    ensures var heap', idx' := Swapped(heap, i, j), SwappedIndex(heap, idx, i, j);
            && Indexed(heap', idx') && Entries(idx') == Entries(idx)
            && Expirations(heap', idx') == Swapped(Expirations(heap, idx), i, j)
  {
    var heap', idx' := Swapped(heap, i, j), SwappedIndex(heap, idx, i, j);
    SwapIndexed(heap, idx, i, j);
    assert idx'.Keys == idx.Keys;
    forall k | k in idx ensures Entries(idx')[k] == Entries(idx)[k] {
    }
    assert Entries(idx') == Entries(idx);
    var e, e' := Expirations(heap, idx), Expirations(heap', idx');
    forall m | 0 <= m < |heap| ensures e'[m] == Swapped(e, i, j)[m] {
      assert Entries(idx')[heap'[m]].expiration == Entries(idx)[heap'[m]].expiration;
    }
  }

  lemma SwapIndexed(heap: seq<string>, idx: map<string, JwtItem>, i: nat, j: nat)
    requires Indexed(heap, idx) && i < |heap| && j < |heap|
    ensures Indexed(Swapped(heap, i, j), SwappedIndex(heap, idx, i, j))
  {
    var heap', idx' := Swapped(heap, i, j), SwappedIndex(heap, idx, i, j);
    forall m | 0 <= m < |heap'| ensures heap'[m] in idx' && idx'[heap'[m]].index == m {
      if m != i && m != j {
        assert idx[heap[m]].index == m;
      }
    }
    forall k | k in idx' ensures 0 <= idx'[k].index < |heap'| && heap'[idx'[k].index] == k {
      assert k in idx && heap[idx[k].index] == k;
    }
  }

  /** `list.Remove`. */
  function Without(s: seq<string>, k: string): seq<string> {
    if s == [] then [] else if s[0] == k then s[1..] else [s[0]] + Without(s[1..], k)
  }

  lemma {:induction false} WithoutKeeps(s: seq<string>, k: string)
    requires Distinct(s)
    ensures Distinct(Without(s, k))
    ensures forall x :: x in Without(s, k) <==> x in s && x != k
    decreases |s|
  {
    if s != [] {
      assert forall x :: x in s <==> x == s[0] || x in s[1..];
      assert s[0] !in s[1..];
      if s[0] != k {
        WithoutKeeps(s[1..], k);
      }
    }
  }

  class ExpirationTracker {
    var heap: seq<string>
    var idx: map<string, JwtItem>
    var lru: seq<string>  // least recently used first
    var hash: Digest
    const limit: int
    const evictOnLimit: bool
    const ttl: int

    ghost predicate Valid()
      reads this
    {
      MinHeap(heap, idx) && Listed(lru, idx) && hash == Recomputed(Entries(idx))
    }

    constructor (limit: int, evictOnLimit: bool, ttl: int)
      ensures Valid() && idx == map[] && lru == []
      ensures this.limit == limit && this.evictOnLimit == evictOnLimit && this.ttl == ttl
    {
      heap, idx, lru, hash := [], map[], [], ZERO;
      this.limit, this.evictOnLimit, this.ttl := limit, evictOnLimit, ttl;
    }

    /** Forget everything, before a reload. */
    method Clear()
      modifies this
      ensures Valid() && idx == map[] && lru == []
    {
      heap, idx, lru, hash := [], map[], [], ZERO;
    }

    method Swap(i: nat, j: nat)
      requires Indexed(heap, idx) && i < |heap| && j < |heap|
      modifies this`heap, this`idx
      ensures Indexed(heap, idx) && heap == Swapped(old(heap), i, j) && Entries(idx) == old(Entries(idx))
      ensures Expirations(heap, idx) == Swapped(old(Expirations(heap, idx)), i, j)
    {
      SwapKeeps(heap, idx, i, j);
      var a, b := heap[i], heap[j];
      heap := heap[i := b][j := a];
      idx := idx[b := idx[b].(index := i)];
      idx := idx[a := idx[a].(index := j)];
    }

    /** `up` of container/heap. */
    method Up(start: nat, ghost n: nat)
      requires Indexed(heap, idx) && start < n <= |heap| && RisingAt(Expirations(heap, idx), n, start)
      modifies this`heap, this`idx
      ensures Indexed(heap, idx) && |heap| == old(|heap|) && Entries(idx) == old(Entries(idx))
      ensures Ordered(Expirations(heap, idx), n)
      ensures forall m :: n <= m < |heap| ==> heap[m] == old(heap)[m]
    {
      hide Ordered, RisingAt;
      var j: nat := start;
      while true
        invariant Indexed(heap, idx) && j < n <= |heap| == old(|heap|) && Entries(idx) == old(Entries(idx))
        invariant RisingAt(Expirations(heap, idx), n, j)
        invariant forall m :: n <= m < |heap| ==> heap[m] == old(heap)[m]
        decreases j
      {
        var i: nat := if j == 0 then 0 else Parent(j);
        if i == j || idx[heap[i]].expiration <= idx[heap[j]].expiration {
          RiseEnd(Expirations(heap, idx), n, j);
          return;
        }
        RiseStep(Expirations(heap, idx), n, j);
        Swap(i, j);
        j := i;
      }
    }

    /** The smaller child of `i` among the first `n`; `n` or more if it has none. */
    method SmallerChild(i: nat, n: nat) returns (j: nat)
      requires Indexed(heap, idx) && i < n <= |heap|
      ensures i < j && (j < n ==> Parent(j) == i)
      ensures forall c {:trigger Expirations(heap, idx)[c]} :: 0 < c < n && Parent(c) == i ==>
                j < n && Expirations(heap, idx)[j] <= Expirations(heap, idx)[c]
    {
      j := 2 * i + 1;
      if j + 1 < n && idx[heap[j + 1]].expiration < idx[heap[j]].expiration {
        j := j + 1;
      }
      assert forall c :: 0 < c < n && Parent(c) == i ==> c == 2 * i + 1 || c == 2 * i + 2;
    }

    /** `down` of container/heap: whether the element at `top` moved. */
    method Down(top: nat, n: nat) returns (moved: bool)
      requires Indexed(heap, idx) && top < n <= |heap| && SinkingAt(Expirations(heap, idx), n, top, top)
      modifies this`heap, this`idx
      ensures Indexed(heap, idx) && |heap| == old(|heap|) && Entries(idx) == old(Entries(idx))
      ensures if moved then Ordered(Expirations(heap, idx), n) else RisingAt(Expirations(heap, idx), n, top)
      ensures forall m :: n <= m < |heap| ==> heap[m] == old(heap)[m]
    {
      hide Ordered, RisingAt, SinkingAt;
      var i: nat := top;
      while true
        invariant Indexed(heap, idx) && top <= i < n <= |heap| == old(|heap|) && Entries(idx) == old(Entries(idx))
        invariant SinkingAt(Expirations(heap, idx), n, i, top)
        invariant forall m :: n <= m < |heap| ==> heap[m] == old(heap)[m]
        decreases n - i
      {
        ghost var e := Expirations(heap, idx);
        var j := SmallerChild(i, n);
        if n <= j || idx[heap[i]].expiration <= idx[heap[j]].expiration {
          SinkEnd(e, n, i, top);
          return i != top;
        }
        SinkStep(e, n, i, top, j);
        Swap(i, j);
        i := j;
      }
    }

    /** `heap.Fix`: the item at `i` was changed. */
    method Fix(i: nat)
      requires Indexed(heap, idx) && i < |heap| && SinkingAt(Expirations(heap, idx), |heap|, i, i)
      modifies this`heap, this`idx
      ensures MinHeap(heap, idx) && Entries(idx) == old(Entries(idx))
    {
      var moved := Down(i, |heap|);
      if !moved {
        Up(i, |heap|);
      }
    }

    /** The tracker's `Push`: append the item to the heap and to the list. */
    method Push(k: string, expiration: int, h: Digest)
      requires Indexed(heap, idx) && Listed(lru, idx) && k !in idx
      modifies this`heap, this`idx, this`lru
      ensures Indexed(heap, idx) && Listed(lru, idx)
      ensures heap == old(heap) + [k] && lru == old(lru) + [k]
      ensures Entries(idx) == old(Entries(idx))[k := Entry(expiration, h)]
      ensures Expirations(heap, idx) == old(Expirations(heap, idx)) + [expiration]
    {
      PushKeeps(heap, idx, lru, k, expiration, h);
      idx := idx[k := JwtItem(|heap|, expiration, h)];
      heap := heap + [k];
      lru := lru + [k];
    }

    /** The tracker's `Pop`: drop the last item from all three. */
    method Pop() returns (k: string, item: JwtItem)
      requires Indexed(heap, idx) && Listed(lru, idx) && heap != []
      modifies this`heap, this`idx, this`lru
      ensures old(heap) == heap + [k] && k in old(idx) && Entries(old(idx))[k] == Entry(item.expiration, item.hash)
      ensures Indexed(heap, idx) && Listed(lru, idx)
      ensures lru == Without(old(lru), k) && Entries(idx) == old(Entries(idx)) - {k}
      ensures Expirations(heap, idx) == old(Expirations(heap, idx))[..|heap|]
    {
      var n := |heap|;
      k := heap[n - 1];
      item := idx[k].(index := -1);
      PopKeeps(heap, idx, lru);
      heap := heap[..n - 1];
      lru := Without(lru, k);
      idx := idx - {k};
    }

    method HeapPush(k: string, expiration: int, h: Digest)
      requires MinHeap(heap, idx) && Listed(lru, idx) && k !in idx
      modifies this`heap, this`idx, this`lru
      ensures MinHeap(heap, idx) && Listed(lru, idx) && lru == old(lru) + [k]
      ensures Entries(idx) == old(Entries(idx))[k := Entry(expiration, h)]
    {
      ghost var before := Entries(idx);
      Push(k, expiration, h);
      Up(|heap| - 1, |heap|);
      ListedByEntries(lru, idx, before[k := Entry(expiration, h)]);
    }

    /** Move the item at `i` to the end and put the others in order. */
    method MoveToEnd(i: nat)
      requires MinHeap(heap, idx) && i < |heap|
      modifies this`heap, this`idx
      ensures Indexed(heap, idx) && |heap| == old(|heap|) && heap[|heap| - 1] == old(heap)[i]
      ensures Entries(idx) == old(Entries(idx)) && Ordered(Expirations(heap, idx), |heap| - 1)
    {
      hide SinkingAt, RisingAt, Ordered;
      var n := |heap| - 1;
      OrderedPrefix(Expirations(heap, idx));
      if n != i {
        ReplaceLast(Expirations(heap, idx), i);
        Swap(i, n);
        var moved := Down(i, n);
        if !moved {
          Up(i, n);
        }
      }
    }

    /** `heap.Remove` and, for `i == 0`, `heap.Pop`. */
    method HeapRemove(i: nat) returns (item: JwtItem)
      requires MinHeap(heap, idx) && Listed(lru, idx) && i < |heap|
      modifies this`heap, this`idx, this`lru
      ensures MinHeap(heap, idx) && Listed(lru, idx) && |heap| == old(|heap|) - 1
      ensures var k := old(heap)[i];
              && k in old(idx) && Entries(old(idx))[k] == Entry(item.expiration, item.hash)
              && Entries(idx) == old(Entries(idx)) - {k} && lru == Without(old(lru), k)
    {
      hide Ordered, Distinct, Without;
      ghost var before := Entries(idx);
      MoveToEnd(i);
      ListedByEntries(lru, idx, before);
      OrderedTake(Expirations(heap, idx), |heap| - 1);
      var last;
      last, item := Pop();
    }

    /** A load or a write of a tracked key renews its time to live and, in a
        cache, makes it the most recently used. */
    method UpdateTrack(k: string, now: int)
      requires Valid()
      modifies this`heap, this`idx, this`lru
      ensures Valid()
      ensures Entries(idx) == Renewed(old(Entries(idx)), k, ttl, now)
      ensures lru == if k in old(idx) && evictOnLimit then Without(old(lru), k) + [k] else old(lru)
    {
      hide Ordered, SinkingAt, Xor, Recomputed;
      if k in idx {
        ghost var before := Entries(idx);
        if ttl != 0 {
          var item := idx[k];
          Renew(k, Wrap64(now + ttl), item.hash);
          RecomputedReplace(before, k, Entry(Wrap64(now + ttl), item.hash));
          XorLaws(Recomputed(before), item.hash, ZERO);
          ListedByEntries(lru, idx, before[k := Entry(Wrap64(now + ttl), item.hash)]);
        }
        if evictOnLimit {
          MoveToBackKeeps(lru, idx, k);
          lru := Without(lru, k) + [k];
        }
      }
    }

    /** Change a tracked item in place and repair the heap. */
    method Renew(k: string, expiration: int, h: Digest)
      requires MinHeap(heap, idx) && k in idx
      modifies this`heap, this`idx
      ensures MinHeap(heap, idx) && Entries(idx) == old(Entries(idx))[k := Entry(expiration, h)]
    {
      hide Ordered, SinkingAt, RisingAt;
      var i := idx[k].index;
      ghost var e := Expirations(heap, idx);
      ReplaceInHeap(e, |heap|, i, expiration);
      idx := idx[k := JwtItem(i, expiration, h)];
      assert Expirations(heap, idx) == e[i := expiration];
      Fix(i);
    }

    /** Forget a key, if it is tracked. The digest need not be up to date: an
        expiry calls this between popping the item and correcting the digest,
        and then it does nothing. */
    method UnTrack(k: string)
      requires MinHeap(heap, idx) && Listed(lru, idx)
      modifies this`heap, this`idx, this`lru, this`hash
      ensures MinHeap(heap, idx) && Listed(lru, idx)
      ensures Entries(idx) == old(Entries(idx)) - {k} && lru == Without(old(lru), k)
      ensures hash == if k in old(idx) then Xor(old(hash), old(idx)[k].hash) else old(hash)
      ensures |heap| == old(|heap|) - (if k in old(idx) then 1 else 0)
      ensures old(Valid()) ==> Valid()
    {
      hide MinHeap, Xor, Recomputed;
      if k in idx {
        ghost var before := Entries(idx);
        RecomputedRemove(before, k);
        PlaceInHeap(heap, idx, k);
        hash := XorAssign(hash, idx[k].hash);
        var item := HeapRemove(idx[k].index);
      } else {
        WithoutAbsent(lru, k);
        assert Entries(idx) - {k} == Entries(idx);
      }
    }

    /** Drop the item that expires first, as the expiry loop does: pop it, untrack
        it, and take its hash out of the digest. */
    method ExpireTop() returns (k: string)
      requires Valid() && heap != []
      modifies this`heap, this`idx, this`lru, this`hash
      ensures Valid() && k == old(heap)[0] && |heap| == old(|heap|) - 1
      ensures Entries(idx) == old(Entries(idx)) - {k} && lru == Without(old(lru), k)
    {
      hide MinHeap, Listed, Xor, Recomputed;
      k := heap[0];
      ghost var before := Entries(idx);
      RootIsTracked(heap, idx);
      RecomputedRemove(before, k);
      WithoutTwice(lru, idx, k);
      var item := HeapRemove(0);
      assert k !in idx by { assert k !in Entries(idx); }
      UnTrack(k);
      assert before - {k} - {k} == before - {k};
      hash := XorAssign(hash, item.hash);
    }

    /** Start tracking a key, or replace what it is tracked with. `expires` is
        the expiry claim of the JWT, if the JWT can be decoded. */
    method Track(k: string, h: Digest, expires: Expiry, now: int)
      requires Valid()
      modifies this`heap, this`idx, this`lru, this`hash
      ensures Valid()
      ensures Entries(idx) == old(Entries(idx))[k := Entry(ExpirationOf(ttl, now, expires), h)]
      ensures lru == if k in old(idx) then old(lru) else old(lru) + [k]
    {
      hide MinHeap, Xor, Recomputed;
      var exp := ExpirationOf(ttl, now, expires);
      ghost var before := Entries(idx);
      if k in idx {
        RecomputedReplace(before, k, Entry(exp, h));
        hash := XorAssign(hash, idx[k].hash);
        Renew(k, exp, h);
        ListedByEntries(lru, idx, before[k := Entry(exp, h)]);
      } else {
        RecomputedAdd(before, k, Entry(exp, h));
        XorLaws(h, Recomputed(before), ZERO);
        HeapPush(k, exp, h);
      }
      hash := XorAssign(hash, h);
    }
  }

  /** The expiry claim of a JWT, in seconds. */
  datatype Expiry = Undecodable | Expires(seconds: int)

  /** When a newly tracked item expires: by the time to live when there is one,
      otherwise by its own claim; no claim means never. */
  function ExpirationOf(ttl: int, now: int, expires: Expiry): int {
    if ttl == MAX_INT64 then MAX_INT64
    else if ttl != 0 then Wrap64(now + ttl)
    else
      var claim := if expires.Expires? then Wrap64(expires.seconds * NANOS) else 0;
      if claim == 0 then MAX_INT64 else claim
  }

  /** Entries after a load or a write of `k`: a time to live starts anew. The
      source does not treat the unlimited time to live apart here. */
  function Renewed(m: map<string, Entry>, k: string, ttl: int, now: int): map<string, Entry> {
    if k in m && ttl != 0 then m[k := Entry(Wrap64(now + ttl), m[k].hash)] else m
  }

  lemma RootIsTracked(heap: seq<string>, idx: map<string, JwtItem>)
    requires MinHeap(heap, idx) && heap != []
    ensures heap[0] in idx && heap[0] in Entries(idx)
  {
  }

  lemma WithoutTwice(lru: seq<string>, idx: map<string, JwtItem>, k: string)
    requires Listed(lru, idx)
    ensures Without(Without(lru, k), k) == Without(lru, k)
  {
    WithoutKeeps(lru, k);
    WithoutAbsent(Without(lru, k), k);
  }

  lemma PlaceInHeap(heap: seq<string>, idx: map<string, JwtItem>, k: string)
    requires MinHeap(heap, idx) && k in idx
    ensures 0 <= idx[k].index < |heap| && heap[idx[k].index] == k
  {
  }

  lemma {:induction false} WithoutAbsent(s: seq<string>, k: string)
    requires k !in s
    ensures Without(s, k) == s
    decreases |s|
  {
    if s != [] { WithoutAbsent(s[1..], k); }
  }

  lemma MoveToBackKeeps(lru: seq<string>, idx: map<string, JwtItem>, k: string)
    requires Listed(lru, idx) && k in idx
    ensures Listed(Without(lru, k) + [k], idx)
  {
    WithoutKeeps(lru, k);
  }

  lemma PushKeeps(heap: seq<string>, idx: map<string, JwtItem>, lru: seq<string>, k: string, expiration: int, h: Digest)
    requires Indexed(heap, idx) && Listed(lru, idx) && k !in idx
    ensures var heap', idx' := heap + [k], idx[k := JwtItem(|heap|, expiration, h)];
            && Indexed(heap', idx') && Listed(lru + [k], idx')
            && Entries(idx') == Entries(idx)[k := Entry(expiration, h)]
            && Expirations(heap', idx') == Expirations(heap, idx) + [expiration]
  {
    var heap', idx' := heap + [k], idx[k := JwtItem(|heap|, expiration, h)];
    assert k !in lru;
    forall x ensures x in lru + [k] <==> x in idx' {
    }
  }

  lemma PopKeeps(heap: seq<string>, idx: map<string, JwtItem>, lru: seq<string>)
    requires Indexed(heap, idx) && Listed(lru, idx) && heap != []
    ensures var n := |heap| - 1;
            var k := heap[n];
            var idx' := idx - {k};
            && Indexed(heap[..n], idx') && Listed(Without(lru, k), idx')
            && Entries(idx') == Entries(idx) - {k}
            && Expirations(heap[..n], idx') == Expirations(heap, idx)[..n]
  {
    var n := |heap| - 1;
    var k := heap[n];
    var heap', idx' := heap[..n], idx - {k};
    WithoutKeeps(lru, k);
    forall i | 0 <= i < |heap'| ensures heap'[i] in idx' && idx'[heap'[i]].index == i {
      assert idx[heap[i]].index == i && idx[k].index == n;
    }
    forall x | x in idx' ensures 0 <= idx'[x].index < |heap'| && heap'[idx'[x].index] == x {
      assert heap[idx[x].index] == x;
    }
    assert Indexed(heap', idx');
  }

  lemma OrderedTake(e: seq<int>, n: nat)
    requires n <= |e| && Ordered(e, n)
    ensures Ordered(e[..n], n)
  {
  }

  lemma OrderedPrefix(e: seq<int>)
    requires e != [] && Ordered(e, |e|)
    ensures Ordered(e, |e| - 1)
  {
  }

  /** After the last element took the place of element `i`, it may have to move. */
  lemma ReplaceLast(e: seq<int>, i: nat)
    requires i + 1 < |e| && Ordered(e, |e|)
    ensures SinkingAt(Swapped(e, i, |e| - 1), |e| - 1, i, i)
  {
    var n := |e| - 1;
    ReplaceInHeap(e, n, i, e[n]);
    assert forall j :: 0 <= j < n ==> Swapped(e, i, n)[j] == e[i := e[n]][j];
  }

  lemma ListedByEntries(lru: seq<string>, idx: map<string, JwtItem>, entries: map<string, Entry>)
    requires Entries(idx) == entries && Distinct(lru) && forall k :: k in lru <==> k in entries
    ensures Listed(lru, idx)
  {
    assert forall k :: k in idx <==> k in Entries(idx);
  }
}
