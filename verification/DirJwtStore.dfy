/** The store object: its methods change the directory and the tracker in place
    and are proved against the functions of `JwtStore`. */
module DirJwtStore {
  import opened ExpirationTracking
  import opened ExpiryHeap
  import opened JwtStore
  import opened Optional

  class Store {
    var files: map<string, string>
    const cfg: Config
    const tracker: ExpirationTracker

    ghost function View(): State
      reads this, tracker
    {
      State(files, Entries(tracker.idx), tracker.lru)
    }

    /** The tracker is well-formed: that it agrees with the directory is `Consistent`. */
    ghost predicate Valid()
      reads this, tracker
    {
      tracker.Valid() && tracker.limit == cfg.limit && tracker.evictOnLimit == cfg.evict && tracker.ttl == cfg.ttl
    }

    /** Replicas whose directories are equal have the same digest, whatever each has
        been through. */
    lemma SameFilesSameHash(other: Store)
      requires Valid() && other.Valid() && cfg == other.cfg
      requires Consistent(cfg, View()) && Consistent(cfg, other.View()) && files == other.files
      ensures tracker.hash == other.tracker.hash
    {
      SameFilesSameDigest(cfg, View(), other.View());
    }

    /** Open a directory: track every file, in the order of the walk. */
    constructor (cfg: Config, dir: map<string, string>, order: seq<string>, now: string -> int)
      requires Distinct(order) && forall k :: k in order <==> k in dir
      ensures Valid() && fresh(tracker) && this.cfg == cfg && files == dir && tracker.lru == order
      ensures Consistent(cfg, View())
    {
      this.cfg := cfg;
      files := dir;
      tracker := new ExpirationTracker(cfg.limit, cfg.evict, cfg.ttl);
      new;
      assert Entries(tracker.idx) == map[];
      TrackAll(order, now);
      ReloadedIsConsistent(cfg, View(), order, now);
    }

    /** The first section of `Reload` that holds the lock. */
    method ClearTracker()
      requires Valid()
      modifies tracker
      ensures Valid() && View() == State(old(files), map[], []) && tracker.hash == ZERO
    {
      tracker.Clear();
    }

    /** The section of `Reload` that tracks a file read before. */
    method TrackRead(k: string, jwt: string, now: int)
      requires Valid()
      modifies tracker
      ensures Valid() && View() == JwtStore.Track(cfg, old(View()), k, jwt, now)
    {
      hide MinHeap, Listed, Recomputed;
      tracker.Track(k, cfg.sha(jwt), ExpiryOf(cfg, jwt), now);
    }

    /** Track every file of a walk, starting from an empty tracker. */
    method TrackAll(order: seq<string>, now: string -> int)
      requires Valid() && Entries(tracker.idx) == map[] && tracker.lru == []
      requires Distinct(order) && forall k :: k in order ==> k in files
      modifies tracker
      ensures Valid() && View() == Reloaded(cfg, old(View()), order, now)
    {
      hide MinHeap, Listed, Recomputed, ExpirationOf, ExpiryOf, Distinct;
      DistinctPrefix(order);
      for i := 0 to |order|
        invariant Valid() && tracker.lru == order[..i]
        invariant Entries(tracker.idx) == TrackedFiles(cfg, files, order[..i], now)
      {
        var k := order[i];
        assert k in files && k !in order[..i];
        OneMoreTracked(cfg, files, order[..i], k, now);
        TrackRead(k, files[k], now(k));
        assert order[..i + 1] == order[..i] + [k];
      }
      assert order[..|order|] == order;
    }

    /** `Reload` between whose sections nothing else happens: the tracker agrees with
        the directory afterwards, and a digest that did before stays the same. */
    method Reload(order: seq<string>, now: string -> int)
      requires Valid() && Walk(View(), order)
      modifies tracker
      ensures Valid() && View() == Reloaded(cfg, old(View()), order, now) && Consistent(cfg, View())
      ensures old(Consistent(cfg, View())) ==> tracker.hash == old(tracker.hash)
    {
      ghost var before := View();
      hide Consistent, TrackedFiles, MinHeap, Listed;
      ReloadedIsConsistent(cfg, before, order, now);
      ClearTracker();
      TrackAll(order, now);
      if Consistent(cfg, before) {
        SameFilesSameDigest(cfg, before, View());
      }
    }

    /** `load`: the file's contents, if there is one; a found key is renewed. */
    method Load(k: string, now: int) returns (jwt: Option<string>)
      requires Valid()
      modifies tracker
      ensures Valid() && tracker.hash == old(tracker.hash)
      ensures if cfg.validKey(k) && k in files then jwt == Some(files[k]) && View() == Touch(cfg, old(View()), k, now)
              else jwt == None && View() == old(View())
    {
      hide MinHeap, Listed, Recomputed, Touch;
      if !cfg.validKey(k) || k !in files {
        return None;
      }
      TouchKey(k, now);
      return Some(files[k]);
    }

    /** Write a file and track it. */
    method PutFile(k: string, jwt: string, now: int)
      requires Valid()
      modifies this`files, tracker
      ensures Valid() && View() == Put(cfg, old(View()), k, jwt, now)
    {
      hide MinHeap, Listed, Recomputed;
      files := files[k := jwt];
      TrackRead(k, jwt, now);
    }

    /** Remove a file and forget it. */
    method RemoveFile(k: string)
      requires Valid()
      modifies this`files, tracker
      ensures Valid() && View() == Drop(old(View()), k)
    {
      hide MinHeap, Listed, Recomputed;
      files := files - {k};
      tracker.UnTrack(k);
    }

    /** Renew a tracked key. */
    method TouchKey(k: string, now: int)
      requires Valid()
      modifies tracker
      ensures Valid() && View() == Touch(cfg, old(View()), k, now) && tracker.hash == old(tracker.hash)
    {
      hide MinHeap, Listed, Recomputed;
      tracker.UpdateTrack(k, now);
    }

    /** Before a key is added to a full store, evict the least recently used. */
    method MakeRoom(k: string, broken: set<string>) returns (ok: bool)
      requires Valid()
      modifies this`files, tracker
      ensures Valid() && ok == !(MustEvict(cfg, old(View()), k) && !CanEvict(cfg, old(View()), broken))
      ensures View() == if ok && MustEvict(cfg, old(View()), k) then Drop(old(View()), old(tracker.lru)[0]) else old(View())
    {
      HeapSize(tracker.heap, tracker.idx);
      hide Drop, MinHeap, Listed, Recomputed;
      if k in tracker.idx || |tracker.heap| < cfg.limit {
        return true;
      }
      if !cfg.evict || tracker.lru == [] {
        return false;
      }
      var victim := tracker.lru[0];
      if victim in broken || victim !in files {
        return false;
      }
      RemoveFile(victim);
      return true;
    }

    /** `write`: when tracker and directory agree, they still do, and the number of
        files stays within the limit. */
    method Write(k: string, jwt: string, now: int, broken: set<string>) returns (w: Written)
      requires Valid() && 1 <= cfg.limit
      modifies this`files, tracker
      ensures Valid() && (View(), w) == JwtStore.Write(cfg, old(View()), k, jwt, now, broken)
      ensures old(Consistent(cfg, View())) ==> Consistent(cfg, View()) && |files| <= Max(cfg.limit, old(|files|))
    {
      ghost var before := View();
      hide Consistent, MustEvict, CanEvict, Touch, Put, Drop, MinHeap, Listed, Recomputed;
      if Consistent(cfg, before) {
        SettledWrite(cfg, before, k, jwt, now, broken);
      }
      if jwt == "" {
        return Failed;
      }
      if k in tracker.idx {
        var same := tracker.idx[k].hash == cfg.sha(jwt);
        TouchKey(k, now);
        if same {
          return Unchanged;
        }
      } else {
        var ok := MakeRoom(k, broken);
        if !ok {
          return Failed;
        }
      }
      if k in broken {
        return Failed;
      }
      PutFile(k, jwt, now);
      return Changed;
    }

    /** `delete`: a file that is missing or cannot be removed leaves everything as
        it is. When tracker and directory agree, they still do. */
    method Delete(k: string, broken: set<string>)
      requires Valid()
      modifies this`files, tracker
      ensures Valid() && View() == JwtStore.Delete(old(View()), k, broken)
      ensures old(Consistent(cfg, View())) ==> Consistent(cfg, View()) && (k in files ==> k in broken)
    {
      ghost var before := View();
      hide MinHeap, Listed, Recomputed, Drop, Partial;
      if k in files && k !in broken {
        if Consistent(cfg, before) {
          DropKeeps(cfg, before, k);
        }
        RemoveFile(k);
      }
    }

    /** Remove the file that expires first and forget it. */
    method ExpireFile()
      requires Valid() && tracker.heap != []
      modifies this`files, tracker
      ensures Valid() && View() == Drop(old(View()), old(tracker.heap)[0])
      ensures |tracker.heap| == old(|tracker.heap|) - 1
    {
      hide MinHeap, Listed, Recomputed;
      files := files - {tracker.heap[0]};
      var k := tracker.ExpireTop();
    }

    /** An expiry pass: remove entries from the top of the heap while they are
        expired and their files can be removed. All expired entries go exactly when
        every one of their files can be removed; an entry whose file is missing or
        stuck holds up all that expire after it. */
    method Expire(now: int, broken: set<string>) returns (gone: set<string>)
      requires Valid()
      modifies this`files, tracker
      ensures Valid() && gone <= Expired(old(View()), now) && gone <= old(files.Keys) && View() == DropAll(old(View()), gone)
      ensures gone == Expired(old(View()), now) <==>
                broken !! Expired(old(View()), now) && Expired(old(View()), now) <= old(files.Keys)
      ensures EarliestFirst(old(View()), gone) && gone !! broken
    {
      ListedOnce(tracker.lru, tracker.idx);
      hide MinHeap, Listed, Recomputed, DropAll, Expired, Drop, EarliestFirst;
      gone := {};
      ghost var start := View();
      DropNone(start);
      NoneFirst(start);
      while tracker.heap != []
        invariant Valid() && gone <= Expired(start, now) && gone <= start.files.Keys && View() == DropAll(start, gone)
        invariant gone !! broken && EarliestFirst(start, gone)
        decreases |tracker.heap|
      {
        var k := tracker.heap[0];
        RootIsTracked(tracker.heap, tracker.idx);
        if tracker.idx[k].expiration > now {
          RootUnexpired(tracker.heap, tracker.idx, now);
          NoneLeft(start, gone, now);
          return;
        }
        DropOneMore(start, gone, k, now);
        RootFirst(tracker.heap, tracker.idx);
        EarliestNext(start, gone, k);
        if k in broken || k !in files {
          return;
        }
        ExpireFile();
        gone := gone + {k};
      }
      HeapIsEmpty(tracker.heap, tracker.idx);
      NoneLeft(start, gone, now);
    }
  }

  /** What is gone expired no later than anything that is left. */
  ghost predicate EarliestFirst(st: State, gone: set<string>) {
    forall g, k :: g in gone && g in st.entries && k in st.entries && k !in gone ==>
      st.entries[g].expiration <= st.entries[k].expiration
  }

  lemma NoneFirst(st: State)
    ensures EarliestFirst(st, {})
  {
  }

  lemma EarliestNext(st: State, gone: set<string>, k: string)
    requires EarliestFirst(st, gone) && k in DropAll(st, gone).entries
    requires forall x :: x in DropAll(st, gone).entries ==>
               DropAll(st, gone).entries[k].expiration <= DropAll(st, gone).entries[x].expiration
    ensures EarliestFirst(st, gone + {k})
  {
    var left := DropAll(st, gone).entries;
    forall x | x in st.entries && x !in gone ensures st.entries[k].expiration <= st.entries[x].expiration {
      assert x in left && left[x] == st.entries[x];
    }
  }

  lemma RootFirst(heap: seq<string>, idx: map<string, JwtItem>)
    requires MinHeap(heap, idx) && heap != []
    ensures heap[0] in Entries(idx)
    ensures forall k :: k in Entries(idx) ==> Entries(idx)[heap[0]].expiration <= Entries(idx)[k].expiration
  {
    var e := Expirations(heap, idx);
    forall k | k in idx ensures idx[heap[0]].expiration <= idx[k].expiration {
      RootIsLeast(e, |heap|, idx[k].index);
    }
  }

  /** While the key that expires first cannot be removed, a pass removes nothing. */
  lemma StuckFirst(st: State, gone: set<string>, k: string)
    requires EarliestFirst(st, gone) && gone <= st.entries.Keys && k in st.entries && k !in gone
    requires forall x :: x in st.entries && x != k ==> st.entries[k].expiration < st.entries[x].expiration
    ensures gone == {}
  {
    if g :| g in gone { assert false; }
  }

  lemma ListedOnce(lru: seq<string>, idx: map<string, JwtItem>)
    requires Listed(lru, idx)
    ensures Distinct(lru)
  {
  }

  lemma DropNone(st: State)
    ensures DropAll(st, {}) == st
  {
    KeepAll(st.lru);
    assert st.files - {} == st.files && st.entries - {} == st.entries;
  }

  /** Dropping keys one by one drops them all. */
  lemma DropOneMore(start: State, gone: set<string>, k: string, now: int)
    requires Distinct(start.lru) && k in DropAll(start, gone).entries
    requires DropAll(start, gone).entries[k].expiration <= now
    ensures Drop(DropAll(start, gone), k) == DropAll(start, gone + {k}) && k in Expired(start, now)
    ensures k in DropAll(start, gone).files <==> k in start.files
  {
    KeepOneLess(start.lru, gone, k);
    assert start.files - gone - {k} == start.files - (gone + {k});
    assert start.entries - gone - {k} == start.entries - (gone + {k});
  }

  lemma {:induction false} KeepOneLess(s: seq<string>, gone: set<string>, k: string)
    requires Distinct(s) && k !in gone
    ensures Without(Keep(s, gone), k) == Keep(s, gone + {k})
    decreases |s|
  {
    if s != [] {
      assert s[0] !in s[1..];
      var rest := Keep(s[1..], gone);
      assert [] + rest == rest && [] + Keep(s[1..], gone + {k}) == Keep(s[1..], gone + {k});
      if s[0] == k {
        KeepAbsent(s[1..], gone, k);
        assert Keep(s, gone) == [k] + rest;
        assert ([k] + rest)[1..] == rest;
      } else {
        KeepOneLess(s[1..], gone, k);
        if s[0] !in gone {
          assert Keep(s, gone) == [s[0]] + rest;
          assert ([s[0]] + rest)[1..] == rest;
        }
      }
    }
  }

  lemma {:induction false} KeepAbsent(s: seq<string>, gone: set<string>, k: string)
    requires k !in s
    ensures Keep(s, gone + {k}) == Keep(s, gone)
    decreases |s|
  {
    if s != [] { KeepAbsent(s[1..], gone, k); }
  }

  lemma NoneLeft(start: State, gone: set<string>, now: int)
    requires gone <= Expired(start, now)
    requires forall k :: k in DropAll(start, gone).entries ==> DropAll(start, gone).entries[k].expiration > now
    ensures gone == Expired(start, now)
  {
    forall k | k in start.entries && k !in gone ensures start.entries[k].expiration > now {
      assert k in DropAll(start, gone).entries;
    }
  }

  lemma HeapIsEmpty(heap: seq<string>, idx: map<string, JwtItem>)
    requires MinHeap(heap, idx) && heap == []
    ensures Entries(idx) == map[]
  {
  }

  /** The root expires first. */
  lemma RootUnexpired(heap: seq<string>, idx: map<string, JwtItem>, now: int)
    requires MinHeap(heap, idx) && heap != [] && idx[heap[0]].expiration > now
    ensures forall k :: k in Entries(idx) ==> Entries(idx)[k].expiration > now
  {
    var e := Expirations(heap, idx);
    forall k | k in idx ensures idx[k].expiration > now {
      RootIsLeast(e, |heap|, idx[k].index);
    }
  }

  lemma DistinctPrefix(s: seq<string>)
    requires Distinct(s)
    ensures forall i :: 0 <= i < |s| ==> s[i] !in s[..i]
  {
  }

  lemma HeapSize(heap: seq<string>, idx: map<string, JwtItem>)
    requires MinHeap(heap, idx)
    ensures |heap| == |Entries(idx)|
  {
    assert Entries(idx).Keys == idx.Keys;
    assert |Entries(idx)| == |Entries(idx).Keys|;
    SizeByIndex(heap, idx.Keys);
  }

  lemma {:induction false} SizeByIndex(s: seq<string>, keys: set<string>)
    requires forall i, j :: 0 <= i < j < |s| ==> s[i] != s[j]
    requires forall k :: k in s <==> k in keys
    ensures |s| == |keys|
    decreases |s|
  {
    if s == [] {
      assert keys == {};
    } else {
      var n := |s| - 1;
      assert forall k :: k in s <==> k in s[..n] || k == s[n];
      SizeByIndex(s[..n], keys - {s[n]});
    }
  }
}
