/** The JWT directory store over its expiration tracker. The directory is a map
    from key to file contents that only the store changes. A reload clears the
    tracker, then reads and tracks one file after the other, and takes the lock for
    each of these steps alone. The clock, failing file operations, hashing and JWT
    decoding are parameters. */
module JwtStore {
  import opened ExpirationTracking
  import opened Int64
  import opened Optional

  datatype Claims = Claims(id: string, issuedAt: int, subject: string, expires: int)

  datatype Config = Config(limit: int, evict: bool, ttl: int,
                           sha: string -> Digest, decode: string -> Option<Claims>,
                           validKey: string -> bool)

  function ExpiryOf(cfg: Config, jwt: string): Expiry {
    match cfg.decode(jwt)
    case None => Undecodable
    case Some(c) => Expires(c.expires)
  }

  // ---------- What the operations do ----------

  /** The directory, what is tracked, and the tracked keys from the least to the
      most recently used. */
  datatype State = State(files: map<string, string>, entries: map<string, Entry>, lru: seq<string>)

  /** What is tracked is a file, with the hash of that file, and is listed once. */
  ghost predicate Partial(cfg: Config, st: State) {
    && Distinct(st.lru) && (forall k :: k in st.lru <==> k in st.entries)
    && (forall k :: k in st.entries ==> k in st.files && st.entries[k].hash == cfg.sha(st.files[k]))
  }

  /** Directory, tracker and list hold the same keys, each once, and every entry
      has the hash of its file. */
  ghost predicate Consistent(cfg: Config, st: State) {
    Partial(cfg, st) && forall k :: k in st.files ==> k in st.entries
  }

  function Touch(cfg: Config, st: State, k: string, now: int): State {
    st.(entries := Renewed(st.entries, k, cfg.ttl, now),
        lru := if k in st.entries && cfg.evict then Without(st.lru, k) + [k] else st.lru)
  }

  /** Track a key with contents that were read or written. */
  function Track(cfg: Config, st: State, k: string, jwt: string, now: int): State {
    st.(entries := st.entries[k := Entry(ExpirationOf(cfg.ttl, now, ExpiryOf(cfg, jwt)), cfg.sha(jwt))],
        lru := if k in st.entries then st.lru else st.lru + [k])
  }

  function Put(cfg: Config, st: State, k: string, jwt: string, now: int): State {
    Track(cfg, st.(files := st.files[k := jwt]), k, jwt, now)
  }

  function Drop(st: State, k: string): State {
    State(st.files - {k}, st.entries - {k}, Without(st.lru, k))
  }

  datatype Written = Changed | Unchanged | Failed

  /** A full store must evict before it can add `k`. */
  predicate MustEvict(cfg: Config, st: State, k: string) {
    k !in st.entries && |st.entries| >= cfg.limit
  }

  /** The least recently used key can be evicted: its file can be removed. */
  predicate CanEvict(cfg: Config, st: State, broken: set<string>) {
    cfg.evict && st.lru != [] && st.lru[0] in st.files && st.lru[0] !in broken
  }

  /** `write`: `broken` are the keys whose file cannot be written or removed. */
  function Write(cfg: Config, st: State, k: string, jwt: string, now: int, broken: set<string>): (State, Written) {
    if jwt == "" then (st, Failed)
    else if k in st.entries then
      var touched := Touch(cfg, st, k, now);
      if st.entries[k].hash == cfg.sha(jwt) then (touched, Unchanged)
      else if k in broken then (touched, Failed)
      else (Put(cfg, touched, k, jwt, now), Changed)
    else if MustEvict(cfg, st, k) && !CanEvict(cfg, st, broken) then (st, Failed)
    else
      var room := if MustEvict(cfg, st, k) then Drop(st, st.lru[0]) else st;
      if k in broken then (room, Failed) else (Put(cfg, room, k, jwt, now), Changed)
  }

  /** `delete`: a file that is not there is no error, and its key is not looked at. */
  function Delete(st: State, k: string, broken: set<string>): State {
    if k in st.files && k !in broken then Drop(st, k) else st
  }

  /** The keys of `s` that are not in `gone`, in order. */
  function Keep(s: seq<string>, gone: set<string>): seq<string> {
    if s == [] then [] else (if s[0] in gone then [] else [s[0]]) + Keep(s[1..], gone)
  }

  function DropAll(st: State, gone: set<string>): State {
    State(st.files - gone, st.entries - gone, Keep(st.lru, gone))
  }

  function Expired(st: State, now: int): set<string> {
    set k | k in st.entries && st.entries[k].expiration <= now
  }

  // ---------- Steps ----------

  /** Where a reload stands: none is running; the tracker is cleared; files are
      still to be read; or one has been read and is to be tracked. */
  datatype Reload =
    | Resting
    | Cleared
    | Walking(todo: seq<string>)
    | Holding(key: string, jwt: string, todo: seq<string>)

  datatype System = System(st: State, reload: Reload)

  datatype Op =
    | LoadOp(key: string, now: int)
    | WriteOp(key: string, jwt: string, now: int, broken: set<string>)
    | DeleteOp(key: string, broken: set<string>)
    | ExpireOp(now: int, gone: set<string>)
    | ClearOp
    | ListOp(order: seq<string>)
    | ReadOp(ok: bool)
    | TrackOp(now: int)
    | FinishOp

  /** An expiry pass removes files of expired keys. A reload lists the directory
      after it has cleared the tracker, and one reload runs at a time. */
  ghost predicate Enabled(s: System, op: Op) {
    match op
    case LoadOp(_, _) => true
    case WriteOp(_, _, _, _) => true
    case DeleteOp(_, _) => true
    case ExpireOp(now, gone) => gone <= Expired(s.st, now) && gone <= s.st.files.Keys
    case ClearOp => s.reload.Resting?
    case ListOp(order) => s.reload.Cleared? && Walk(s.st, order)
    case ReadOp(_) => s.reload.Walking? && s.reload.todo != []
    case TrackOp(_) => s.reload.Holding?
    case FinishOp => s.reload == Walking([])
  }

  /** `order` is a walk over the directory: every key once. */
  ghost predicate Walk(st: State, order: seq<string>) {
    Distinct(order) && forall k :: k in order <==> k in st.files
  }

  function Next(cfg: Config, s: System, op: Op): System
    requires Enabled(s, op)
  {
    match op
    case LoadOp(k, now) => if k in s.st.files then s.(st := Touch(cfg, s.st, k, now)) else s
    case WriteOp(k, jwt, now, broken) => s.(st := Write(cfg, s.st, k, jwt, now, broken).0)
    case DeleteOp(k, broken) => s.(st := Delete(s.st, k, broken))
    case ExpireOp(_, gone) => s.(st := DropAll(s.st, gone))
    case ClearOp => System(State(s.st.files, map[], []), Cleared)
    case ListOp(order) => s.(reload := Walking(order))
    case ReadOp(ok) =>
      var k, rest := s.reload.todo[0], s.reload.todo[1..];
      s.(reload := if ok && k in s.st.files then Holding(k, s.st.files[k], rest) else Walking(rest))
    case TrackOp(now) =>
      System(Track(cfg, s.st, s.reload.key, s.reload.jwt, now), Walking(s.reload.todo))
    case FinishOp => s.(reload := Resting)
  }

  // ---------- What they keep ----------

  /** A reload in flight will still come to `k`. */
  predicate Due(r: Reload, k: string) {
    match r
    case Resting => false
    case Cleared => true
    case Walking(todo) => k in todo
    case Holding(key, _, todo) => k == key || k in todo
  }

  /** What is tracked agrees with its file, and what is not is still to be
      reloaded. With no reload running this is agreement of the whole store. */
  ghost predicate InFlight(cfg: Config, s: System) {
    && Partial(cfg, s.st) && Orderly(s.reload)
    && forall k :: k in s.st.files ==> k in s.st.entries || Due(s.reload, k)
  }

  /** Every file of the walk is visited once. */
  predicate Orderly(r: Reload) {
    match r
    case Resting => true
    case Cleared => true
    case Walking(todo) => Distinct(todo)
    case Holding(key, _, todo) => Distinct(todo) && key !in todo
  }

  lemma RestingIsConsistent(cfg: Config, s: System)
    requires s.reload.Resting?
    ensures InFlight(cfg, s) <==> Consistent(cfg, s.st)
  {
  }

  lemma TouchKeeps(cfg: Config, st: State, k: string, now: int)
    requires Partial(cfg, st)
    ensures Partial(cfg, Touch(cfg, st, k, now)) && Touch(cfg, st, k, now).files == st.files
    ensures Touch(cfg, st, k, now).entries.Keys == st.entries.Keys
  {
    WithoutKeeps(st.lru, k);
  }

  lemma PutKeeps(cfg: Config, st: State, k: string, jwt: string, now: int)
    requires Partial(cfg, st)
    ensures Partial(cfg, Put(cfg, st, k, jwt, now))
    ensures Put(cfg, st, k, jwt, now).files.Keys == st.files.Keys + {k}
    ensures Put(cfg, st, k, jwt, now).entries.Keys == st.entries.Keys + {k}
  {
  }

  lemma DropKeeps(cfg: Config, st: State, k: string)
    requires Partial(cfg, st)
    ensures Partial(cfg, Drop(st, k))
    ensures Drop(st, k).files.Keys == st.files.Keys - {k} && Drop(st, k).entries.Keys == st.entries.Keys - {k}
  {
    WithoutKeeps(st.lru, k);
  }

  /** No file is left untracked that was tracked. */
  ghost predicate NoneLost(st: State, st': State) {
    forall k :: k in st'.files && k !in st'.entries ==> k in st.files && k !in st.entries
  }

  lemma NothingLost(st: State)
    ensures NoneLost(st, st)
  {
  }

  lemma UpdateKeeps(cfg: Config, st: State, k: string, jwt: string, now: int)
    requires Partial(cfg, st) && k in st.entries
    ensures var touched := Touch(cfg, st, k, now);
            && Partial(cfg, touched) && NoneLost(st, touched)
            && Partial(cfg, Put(cfg, touched, k, jwt, now)) && NoneLost(st, Put(cfg, touched, k, jwt, now))
  {
    hide Partial, Touch, Put;
    TouchKeeps(cfg, st, k, now);
    PutKeeps(cfg, Touch(cfg, st, k, now), k, jwt, now);
  }

  lemma AddKeeps(cfg: Config, st: State, k: string, jwt: string, now: int)
    requires Partial(cfg, st)
    ensures Partial(cfg, Put(cfg, st, k, jwt, now)) && NoneLost(st, Put(cfg, st, k, jwt, now))
  {
    hide Partial, Put;
    PutKeeps(cfg, st, k, jwt, now);
  }

  lemma EvictKeeps(cfg: Config, st: State, gone: string)
    requires Partial(cfg, st)
    ensures Partial(cfg, Drop(st, gone)) && NoneLost(st, Drop(st, gone))
  {
    hide Partial, Drop;
    DropKeeps(cfg, st, gone);
  }

  lemma NoneLostTwice(a: State, b: State, c: State)
    requires NoneLost(a, b) && NoneLost(b, c)
    ensures NoneLost(a, c)
  {
  }

  /** Every write keeps what is tracked in agreement with its file, and leaves no
      file untracked that was tracked. */
  lemma WriteKeeps(cfg: Config, st: State, k: string, jwt: string, now: int, broken: set<string>)
    requires Partial(cfg, st)
    ensures var st' := Write(cfg, st, k, jwt, now, broken).0; Partial(cfg, st') && NoneLost(st, st')
  {
    hide Partial, Touch, Put, Drop, NoneLost;
    NothingLost(st);
    if k in st.entries {
      UpdateKeeps(cfg, st, k, jwt, now);
    } else {
      AddKeeps(cfg, st, k, jwt, now);
      if st.lru != [] {
        var room := Drop(st, st.lru[0]);
        EvictKeeps(cfg, st, st.lru[0]);
        AddKeeps(cfg, room, k, jwt, now);
        NoneLostTwice(st, room, Put(cfg, room, k, jwt, now));
      }
    }
  }

  /** A file is read, is gone, or is tracked already; and what is tracked is what
      the file holds by then. */
  predicate InTime(cfg: Config, s: System, op: Op) {
    match op
    case ReadOp(ok) =>
      s.reload.Walking? && s.reload.todo != [] ==> ok || s.reload.todo[0] !in s.st.files || s.reload.todo[0] in s.st.entries
    case TrackOp(_) =>
      s.reload.Holding? ==> s.reload.key in s.st.files && cfg.sha(s.st.files[s.reload.key]) == cfg.sha(s.reload.jwt)
    case _ => true
  }

  lemma TrackKeeps(cfg: Config, s: System, now: int)
    requires InFlight(cfg, s) && s.reload.Holding?
    ensures InFlight(cfg, Next(cfg, s, TrackOp(now))) <==> InTime(cfg, s, TrackOp(now))
  {
    var s' := Next(cfg, s, TrackOp(now));
    assert s.reload.key in s'.st.entries;
  }

  lemma ReadKeeps(cfg: Config, s: System, ok: bool)
    requires InFlight(cfg, s) && s.reload.Walking? && s.reload.todo != []
    ensures InFlight(cfg, Next(cfg, s, ReadOp(ok))) <==> InTime(cfg, s, ReadOp(ok))
  {
    var s' := Next(cfg, s, ReadOp(ok));
    var todo := s.reload.todo;
    assert forall k :: k in todo <==> k == todo[0] || k in todo[1..];
    assert todo[0] !in todo[1..] && Distinct(todo[1..]);
  }

  lemma {:induction false} KeepKeeps(s: seq<string>, gone: set<string>)
    requires Distinct(s)
    ensures Distinct(Keep(s, gone))
    ensures forall x :: x in Keep(s, gone) <==> x in s && x !in gone
    decreases |s|
  {
    if s != [] {
      assert forall x :: x in s <==> x == s[0] || x in s[1..];
      assert s[0] !in s[1..];
      KeepKeeps(s[1..], gone);
    }
  }

  lemma DropAllKeeps(cfg: Config, st: State, gone: set<string>)
    requires Partial(cfg, st)
    ensures Partial(cfg, DropAll(st, gone))
  {
    KeepKeeps(st.lru, gone);
  }

  /** Every step keeps a store in flight in order, exactly when a reload reads
      every file that it must and tracks nothing that has changed since. */
  lemma StepKeeps(cfg: Config, s: System, op: Op)
    requires InFlight(cfg, s) && Enabled(s, op)
    ensures InFlight(cfg, Next(cfg, s, op)) <==> InTime(cfg, s, op)
  {
    hide Partial, Touch, Write, Drop, DropAll;
    match op
    case LoadOp(k, now) => TouchKeeps(cfg, s.st, k, now);
    case WriteOp(k, jwt, now, broken) => WriteKeeps(cfg, s.st, k, jwt, now, broken);
    case DeleteOp(k, _) => DropKeeps(cfg, s.st, k);
    case ExpireOp(_, gone) =>
      DropAllKeeps(cfg, s.st, gone);
      DropAllIs(s.st, gone);
    case ClearOp => NothingTracked(cfg, s.st.files);
    case ListOp(order) =>
    case ReadOp(ok) => ReadKeeps(cfg, s, ok);
    case TrackOp(now) => TrackKeeps(cfg, s, now);
    case FinishOp =>
  }

  lemma NothingTracked(cfg: Config, files: map<string, string>)
    ensures Partial(cfg, State(files, map[], []))
  {
  }

  lemma DropAllIs(st: State, gone: set<string>)
    ensures DropAll(st, gone).files.Keys == st.files.Keys - gone && DropAll(st, gone).entries.Keys == st.entries.Keys - gone
  {
  }

  // ---------- The limit ----------

  function Max(a: int, b: int): int { if a < b then b else a }

  lemma MapSizes<V>(m: map<string, V>, k: string, v: V)
    ensures |m[k := v]| == |m| + (if k in m then 0 else 1)
    ensures |m - {k}| == |m| - (if k in m then 1 else 0)
  {
    assert m[k := v].Keys == m.Keys + {k} && (m - {k}).Keys == m.Keys - {k};
    assert |m[k := v]| == |m[k := v].Keys| && |m - {k}| == |(m - {k}).Keys| && |m| == |m.Keys|;
  }

  lemma SubsetSize(a: set<string>, b: set<string>)
    requires a <= b
    ensures |a| <= |b|
  {
    assert b == a + (b - a);
  }

  /** A write adds a file although the directory is full. One that replaces what is
      tracked is not tested against the limit, and files that are not tracked do
      not count. */
  predicate Adds(cfg: Config, st: State, op: Op) {
    && op.WriteOp? && op.jwt != "" && op.key !in op.broken && op.key !in st.files && cfg.limit <= |st.files|
    && if op.key in st.entries then st.entries[op.key].hash != cfg.sha(op.jwt) else |st.entries| < cfg.limit
  }

  lemma PutCount(cfg: Config, st: State, k: string, jwt: string, now: int)
    ensures |Put(cfg, st, k, jwt, now).files| == |st.files| + (if k in st.files then 0 else 1)
  {
    MapSizes(st.files, k, jwt);
  }

  lemma DropCount(st: State, k: string)
    requires k in st.files
    ensures |Drop(st, k).files| == |st.files| - 1
  {
    MapSizes(st.files, k, "");
  }

  /** A write to a key that is not tracked, with and without an eviction. */
  lemma AddCount(cfg: Config, st: State, k: string, jwt: string, now: int, broken: set<string>)
    requires k !in st.entries && jwt != "" && 1 <= cfg.limit
    ensures |Write(cfg, st, k, jwt, now, broken).0.files| <= Max(cfg.limit, |st.files|)
            <==> !Adds(cfg, st, WriteOp(k, jwt, now, broken))
  {
    hide Put, Drop;
    if !MustEvict(cfg, st, k) {
      PutCount(cfg, st, k, jwt, now);
    } else if CanEvict(cfg, st, broken) {
      DropCount(st, st.lru[0]);
      PutCount(cfg, Drop(st, st.lru[0]), k, jwt, now);
    }
  }

  lemma WriteCount(cfg: Config, st: State, k: string, jwt: string, now: int, broken: set<string>)
    requires 1 <= cfg.limit
    ensures |Write(cfg, st, k, jwt, now, broken).0.files| <= Max(cfg.limit, |st.files|)
            <==> !Adds(cfg, st, WriteOp(k, jwt, now, broken))
  {
    if jwt != "" {
      if k in st.entries {
        PutCount(cfg, Touch(cfg, st, k, now), k, jwt, now);
      } else {
        hide Put, Drop, Write;
        AddCount(cfg, st, k, jwt, now, broken);
      }
    }
  }

  /** From every state, a step takes the number of files above the limit and what it
      was exactly when it is such a write. */
  lemma StepCount(cfg: Config, s: System, op: Op)
    requires Enabled(s, op) && 1 <= cfg.limit
    ensures |Next(cfg, s, op).st.files| <= Max(cfg.limit, |s.st.files|) <==> !Adds(cfg, s.st, op)
  {
    hide Write, Delete, DropAll, Expired;
    match op
    case LoadOp(k, now) =>
    case WriteOp(k, jwt, now, broken) => WriteCount(cfg, s.st, k, jwt, now, broken);
    case DeleteOp(k, broken) => DeleteCount(s.st, k, broken);
    case ExpireOp(_, gone) => ExpireCount(s.st, gone);
    case ClearOp =>
    case ListOp(order) =>
    case ReadOp(ok) =>
    case TrackOp(now) =>
    case FinishOp =>
  }

  lemma ExpireCount(st: State, gone: set<string>)
    ensures |DropAll(st, gone).files| <= |st.files|
  {
    var left := DropAll(st, gone).files;
    assert left.Keys == st.files.Keys - gone;
    assert |left| == |left.Keys| && |st.files| == |st.files.Keys|;
    SubsetSize(left.Keys, st.files.Keys);
  }

  lemma DeleteCount(st: State, k: string, broken: set<string>)
    ensures |Delete(st, k, broken).files| <= |st.files|
  {
    MapSizes(st.files, k, "");
  }

  /** No write is such in a store that agrees with its directory. */
  lemma ConsistentNeverAdds(cfg: Config, st: State, op: Op)
    requires Consistent(cfg, st)
    ensures !Adds(cfg, st, op)
  {
    assert st.entries.Keys == st.files.Keys;
    assert |st.entries| == |st.entries.Keys| && |st.files| == |st.files.Keys|;
  }

  /** A consistent store stays so under every write, and within its limit. */
  lemma SettledWrite(cfg: Config, st: State, k: string, jwt: string, now: int, broken: set<string>)
    requires Consistent(cfg, st) && 1 <= cfg.limit
    ensures var st' := Write(cfg, st, k, jwt, now, broken).0;
            Consistent(cfg, st') && |st'.files| <= Max(cfg.limit, |st.files|)
  {
    hide Partial, Write;
    WriteKeeps(cfg, st, k, jwt, now, broken);
    WriteCount(cfg, st, k, jwt, now, broken);
    ConsistentNeverAdds(cfg, st, WriteOp(k, jwt, now, broken));
  }

  // ---------- Whole runs ----------

  /** A run: `ops[i]` leads from `ss[i]` to `ss[i + 1]`. */
  ghost predicate Run(cfg: Config, ss: seq<System>, ops: seq<Op>) {
    |ss| == |ops| + 1 && forall i :: 0 <= i < |ops| ==> Enabled(ss[i], ops[i]) && ss[i + 1] == Next(cfg, ss[i], ops[i])
  }

  ghost predicate AllInTime(cfg: Config, ss: seq<System>, ops: seq<Op>)
    requires |ss| == |ops| + 1
  {
    forall i :: 0 <= i < |ops| ==> InTime(cfg, ss[i], ops[i])
  }

  /** Over every run of loads, writes, deletes, expiry passes and the steps of
      reloads that are in time, what is tracked agrees with its file and the rest
      is due; whenever no reload runs, the whole store agrees. */
  lemma {:induction false} RunKeeps(cfg: Config, ss: seq<System>, ops: seq<Op>, n: nat)
    requires Run(cfg, ss, ops) && n <= |ops| && InFlight(cfg, ss[0]) && AllInTime(cfg, ss, ops)
    ensures InFlight(cfg, ss[n]) && (ss[n].reload.Resting? ==> Consistent(cfg, ss[n].st))
    decreases n
  {
    hide InFlight, Consistent, Next, InTime, Enabled;
    if n > 0 {
      RunKeeps(cfg, ss, ops, n - 1);
      assert Enabled(ss[n - 1], ops[n - 1]) && ss[n] == Next(cfg, ss[n - 1], ops[n - 1]);
      StepKeeps(cfg, ss[n - 1], ops[n - 1]);
    }
    if ss[n].reload.Resting? { RestingIsConsistent(cfg, ss[n]); }
  }

  /** Directory and tracker agree in every state of a run, up to the files that a
      reload is still to come to, exactly when every step of its reloads is in time. */
  lemma AgreementIsExact(cfg: Config, ss: seq<System>, ops: seq<Op>)
    requires Run(cfg, ss, ops) && InFlight(cfg, ss[0])
    ensures (forall i :: 0 <= i < |ss| ==> InFlight(cfg, ss[i])) <==> AllInTime(cfg, ss, ops)
  {
    hide InFlight, Next, InTime, Enabled;
    if AllInTime(cfg, ss, ops) {
      forall i: nat | i < |ss| ensures InFlight(cfg, ss[i]) {
        RunKeeps(cfg, ss, ops, i);
      }
    }
    if forall i :: 0 <= i < |ss| ==> InFlight(cfg, ss[i]) {
      forall i | 0 <= i < |ops| ensures InTime(cfg, ss[i], ops[i]) {
        assert Enabled(ss[i], ops[i]) && ss[i + 1] == Next(cfg, ss[i], ops[i]);
        StepKeeps(cfg, ss[i], ops[i]);
      }
    }
  }

  predicate Fits(cfg: Config, st: State, st': State) { |st'.files| <= Max(cfg.limit, |st.files|) }

  ghost predicate NoneAdds(cfg: Config, ss: seq<System>, ops: seq<Op>)
    requires |ss| == |ops| + 1
  {
    forall i :: 0 <= i < |ops| ==> !Adds(cfg, ss[i].st, ops[i])
  }

  lemma FitsUnlessAdded(cfg: Config, ss: seq<System>, ops: seq<Op>, i: nat)
    requires Run(cfg, ss, ops) && 1 <= cfg.limit && i < |ops|
    ensures Fits(cfg, ss[i].st, ss[i + 1].st) <==> !Adds(cfg, ss[i].st, ops[i])
  {
    hide Next, Enabled, Adds;
    assert Enabled(ss[i], ops[i]) && ss[i + 1] == Next(cfg, ss[i], ops[i]);
    StepCount(cfg, ss[i], ops[i]);
  }

  /** In every run, no step takes the number of files above the limit and what it was
      exactly when no write adds to a full directory. */
  lemma LimitIsExact(cfg: Config, ss: seq<System>, ops: seq<Op>)
    requires Run(cfg, ss, ops) && 1 <= cfg.limit
    ensures (forall i :: 0 <= i < |ops| ==> Fits(cfg, ss[i].st, ss[i + 1].st)) <==> NoneAdds(cfg, ss, ops)
  {
    hide Next, Enabled, Adds, Fits;
    if forall i :: 0 <= i < |ops| ==> Fits(cfg, ss[i].st, ss[i + 1].st) {
      forall i | 0 <= i < |ops| ensures !Adds(cfg, ss[i].st, ops[i]) {
        FitsUnlessAdded(cfg, ss, ops, i);
      }
    }
    if NoneAdds(cfg, ss, ops) {
      forall i | 0 <= i < |ops| ensures Fits(cfg, ss[i].st, ss[i + 1].st) {
        FitsUnlessAdded(cfg, ss, ops, i);
      }
    }
  }

  lemma {:induction false} RunStaysWithinStart(cfg: Config, ss: seq<System>, ops: seq<Op>, n: nat)
    requires Run(cfg, ss, ops) && n <= |ops| && 1 <= cfg.limit && NoneAdds(cfg, ss, ops)
    ensures |ss[n].st.files| <= Max(cfg.limit, |ss[0].st.files|)
    decreases n
  {
    hide Next, Enabled, Adds;
    if n > 0 {
      RunStaysWithinStart(cfg, ss, ops, n - 1);
      FitsUnlessAdded(cfg, ss, ops, n - 1);
    }
  }

  /** A run that starts within the limit stays within it exactly when no write adds to
      a full directory. */
  lemma RunStaysWithinLimit(cfg: Config, ss: seq<System>, ops: seq<Op>)
    requires Run(cfg, ss, ops) && 1 <= cfg.limit && |ss[0].st.files| <= cfg.limit
    ensures (forall i :: 0 <= i < |ss| ==> |ss[i].st.files| <= cfg.limit) <==> NoneAdds(cfg, ss, ops)
  {
    hide Next, Enabled, Adds;
    if NoneAdds(cfg, ss, ops) {
      forall i | 0 <= i < |ss| ensures |ss[i].st.files| <= cfg.limit {
        RunStaysWithinStart(cfg, ss, ops, i);
      }
    }
    if forall i :: 0 <= i < |ss| ==> |ss[i].st.files| <= cfg.limit {
      forall i | 0 <= i < |ops| ensures !Adds(cfg, ss[i].st, ops[i]) {
        assert |ss[i + 1].st.files| <= cfg.limit;
        FitsUnlessAdded(cfg, ss, ops, i);
      }
    }
  }

  /** Whenever no reload is in flight, no write of a run whose reloads are in time adds
      to a full directory. */
  lemma OnlyReloadsAdd(cfg: Config, ss: seq<System>, ops: seq<Op>, n: nat)
    requires Run(cfg, ss, ops) && n < |ops| && InFlight(cfg, ss[0]) && AllInTime(cfg, ss, ops) && ss[n].reload.Resting?
    ensures !Adds(cfg, ss[n].st, ops[n])
  {
    hide InFlight, Consistent, Next, InTime, Enabled, Adds;
    RunKeeps(cfg, ss, ops, n);
    ConsistentNeverAdds(cfg, ss[n].st, ops[n]);
  }

  // ---------- What goes wrong otherwise ----------

  /** A file that is rewritten after a reload has read it is tracked with the hash
      of what it held before. */
  lemma RewrittenWhileHeld(cfg: Config, s: System, jwt: string, now: int)
    requires InFlight(cfg, s) && s.reload.Holding? && s.reload.key !in s.st.entries && |s.st.entries| < cfg.limit
    requires jwt != "" && cfg.sha(jwt) != cfg.sha(s.reload.jwt)
    ensures var k := s.reload.key;
            var end := Next(cfg, Next(cfg, s, WriteOp(k, jwt, now, {})), TrackOp(now)).st;
            k in end.files && k in end.entries && end.entries[k].hash != cfg.sha(end.files[k]) && !Consistent(cfg, end)
  {
  }

  /** A file that is deleted after a reload has read it is tracked all the same. */
  lemma DeletedWhileHeld(cfg: Config, s: System, now: int)
    requires InFlight(cfg, s) && s.reload.Holding? && s.reload.key in s.st.files
    ensures var k := s.reload.key;
            var end := Next(cfg, Next(cfg, s, DeleteOp(k, {})), TrackOp(now)).st;
            k in end.entries && k !in end.files && !Consistent(cfg, end)
  {
  }

  /** Writes of new keys, loads and deletes of `k`, and passes that remove nothing. */
  predicate AroundMissing(k: string, st: State, op: Op) {
    match op
    case LoadOp(x, _) => x == k
    case WriteOp(x, _, _, _) => x !in st.entries
    case DeleteOp(x, _) => x == k
    case ExpireOp(_, gone) => gone == {}
    case _ => false
  }

  lemma AroundMissingIsIdle(cfg: Config, s: System, op: Op)
    requires s.st.lru != [] && s.st.lru[0] !in s.st.files && |s.st.entries| >= cfg.limit
    requires Enabled(s, op) && AroundMissing(s.st.lru[0], s.st, op)
    ensures Next(cfg, s, op) == s
  {
    if op.ExpireOp? { KeepAll(s.st.lru); }
  }

  lemma {:induction false} KeepAll(s: seq<string>)
    ensures Keep(s, {}) == s
    decreases |s|
  {
    if s != [] { KeepAll(s[1..]); }
  }

  /** While the key without a file is the least recently used of a full store, the store
      is stuck: however often new keys are written and that key is loaded or deleted,
      nothing changes. */
  lemma {:induction false} MissingFileBlocksAdds(cfg: Config, ss: seq<System>, ops: seq<Op>, n: nat)
    requires Run(cfg, ss, ops) && n <= |ops|
    requires ss[0].st.lru != [] && ss[0].st.lru[0] !in ss[0].st.files && |ss[0].st.entries| >= cfg.limit
    requires forall i :: 0 <= i < |ops| ==> AroundMissing(ss[0].st.lru[0], ss[0].st, ops[i])
    ensures ss[n] == ss[0]
    decreases n
  {
    hide Next, Enabled, AroundMissing;
    if n > 0 {
      MissingFileBlocksAdds(cfg, ss, ops, n - 1);
      assert Enabled(ss[n - 1], ops[n - 1]) && ss[n] == Next(cfg, ss[n - 1], ops[n - 1]);
      AroundMissingIsIdle(cfg, ss[n - 1], ops[n - 1]);
    }
  }

  /** The key without a file is tracked, so that writing it again is not tested against
      the limit. */
  function DeleteAndRewrite(order: seq<string>, c: string, jwt: string, other: string, now: int): seq<Op>
    requires order != []
  {
    [ClearOp, ListOp(order), ReadOp(true), DeleteOp(order[0], {}), TrackOp(now),
     WriteOp(c, jwt, now, {}), WriteOp(order[0], other, now, {})]
  }

  /** A full store whose first file is deleted after a reload has read it takes another
      key and that file again, beyond the limit. */
  lemma RewrittenAfterDelete(cfg: Config, st: State, order: seq<string>, c: string, jwt: string, other: string, now: int)
    requires Consistent(cfg, st) && |st.files| == cfg.limit >= 2 && Walk(st, order) && order != []
    requires c !in st.files && jwt != "" && other != "" && cfg.sha(other) != cfg.sha(st.files[order[0]])
    ensures exists ss: seq<System> :: Run(cfg, ss, DeleteAndRewrite(order, c, jwt, other, now))
              && ss[0] == System(st, Resting) && |ss[6].st.files| == cfg.limit && |ss[7].st.files| == cfg.limit + 1
  {
    hide Consistent, Walk, Put, Touch, Track, Write, Delete, Drop, Goes, Run, Enabled, Next;
    ListedAfterClear(cfg, st, order);
    TrackedAfterDelete(cfg, st.files, order, now);
    var a, rest := order[0], order[1..];
    var bare, less := State(st.files, map[], []), State(st.files - {a}, map[], []);
    var tracked := Track(cfg, less, a, st.files[a], now);
    var added := Put(cfg, tracked, c, jwt, now);
    var back := Put(cfg, Touch(cfg, added, a, now), a, other, now);
    DeletedFromBare(st.files, a);
    WritesAfterDelete(cfg, less, a, st.files[a], c, jwt, other, now);
    GoesByWrite(cfg, tracked, Walking(rest), c, jwt, now);
    GoesByWrite(cfg, added, Walking(rest), a, other, now);
    var ss := [System(st, Resting), System(bare, Cleared), System(bare, Walking(order)), System(bare, Holding(a, st.files[a], rest)),
               System(less, Holding(a, st.files[a], rest)), System(tracked, Walking(rest)),
               System(added, Walking(rest)), System(back, Walking(rest))];
    ShownRun(cfg, ss, DeleteAndRewrite(order, c, jwt, other, now));
  }

  ghost predicate Goes(cfg: Config, s: System, op: Op, s': System) { Enabled(s, op) && s' == Next(cfg, s, op) }

  lemma GoesByWrite(cfg: Config, st: State, r: Reload, k: string, jwt: string, now: int)
    ensures Goes(cfg, System(st, r), WriteOp(k, jwt, now, {}), System(Write(cfg, st, k, jwt, now, {}).0, r))
  {
    hide Write;
  }

  lemma ListedAfterClear(cfg: Config, st: State, order: seq<string>)
    requires Walk(st, order) && order != []
    ensures var bare := State(st.files, map[], []);
            && order[0] in st.files
            && Goes(cfg, System(st, Resting), ClearOp, System(bare, Cleared))
            && Goes(cfg, System(bare, Cleared), ListOp(order), System(bare, Walking(order)))
  {
    hide Distinct, Write, Touch, Track, Delete, DropAll, Expired;
    assert order[0] in order;
  }

  lemma TrackedAfterDelete(cfg: Config, files: map<string, string>, order: seq<string>, now: int)
    requires order != [] && order[0] in files
    ensures var a, rest := order[0], order[1..];
            var bare, less := State(files, map[], []), State(files - {a}, map[], []);
            && Goes(cfg, System(bare, Walking(order)), ReadOp(true), System(bare, Holding(a, files[a], rest)))
            && Goes(cfg, System(bare, Holding(a, files[a], rest)), DeleteOp(a, {}), System(less, Holding(a, files[a], rest)))
            && Goes(cfg, System(less, Holding(a, files[a], rest)), TrackOp(now),
                    System(Track(cfg, less, a, files[a], now), Walking(rest)))
  {
    hide Walk, Delete, Track, Write, Touch, DropAll, Expired;
    DeletedFromBare(files, order[0]);
  }

  lemma DeletedFromBare(files: map<string, string>, a: string)
    requires a in files
    ensures Delete(State(files, map[], []), a, {}) == State(files - {a}, map[], []) && |files - {a}| == |files| - 1
  {
    MapSizes(files, a, "");
    var none: map<string, Entry> := map[];
    assert none - {a} == none;
  }

  /** The two writes, after `a` was tracked without its file. */
  lemma WritesAfterDelete(cfg: Config, less: State, a: string, was: string, c: string, jwt: string, other: string, now: int)
    requires less.entries == map[] && less.lru == [] && a !in less.files && c !in less.files && a != c
    requires cfg.limit >= 2 && jwt != "" && other != "" && cfg.sha(other) != cfg.sha(was)
    ensures var tracked := Track(cfg, less, a, was, now);
            var added := Put(cfg, tracked, c, jwt, now);
            var back := Put(cfg, Touch(cfg, added, a, now), a, other, now);
            && Write(cfg, tracked, c, jwt, now, {}).0 == added && Write(cfg, added, a, other, now, {}).0 == back
            && |added.files| == |less.files| + 1 && |back.files| == |less.files| + 2
  {
    hide ExpirationOf, ExpiryOf;
    var tracked := Track(cfg, less, a, was, now);
    var added := Put(cfg, tracked, c, jwt, now);
    assert |tracked.entries| == 1;
    PutCount(cfg, tracked, c, jwt, now);
    PutCount(cfg, Touch(cfg, added, a, now), a, other, now);
  }

  /** Seven steps, one by one. */
  lemma ShownRun(cfg: Config, ss: seq<System>, ops: seq<Op>)
    requires |ops| == 7 && |ss| == 8
    requires Goes(cfg, ss[0], ops[0], ss[1]) && Goes(cfg, ss[1], ops[1], ss[2]) && Goes(cfg, ss[2], ops[2], ss[3])
    requires Goes(cfg, ss[3], ops[3], ss[4]) && Goes(cfg, ss[4], ops[4], ss[5])
    requires Goes(cfg, ss[5], ops[5], ss[6]) && Goes(cfg, ss[6], ops[6], ss[7])
    ensures Run(cfg, ss, ops)
  {
    hide Enabled, Next;
  }

  /** While a reload of a full store has tracked nothing yet, a write adds a file
      beyond the limit. */
  lemma AddedWhileCleared(cfg: Config, st: State, k: string, jwt: string, now: int)
    requires Consistent(cfg, st) && |st.files| == cfg.limit >= 1 && k !in st.files && jwt != ""
    ensures var cleared := Next(cfg, System(st, Resting), ClearOp);
            |Next(cfg, cleared, WriteOp(k, jwt, now, {})).st.files| == cfg.limit + 1
  {
    hide Put, Drop, Touch;
    PutCount(cfg, State(st.files, map[], []), k, jwt, now);
    assert !MustEvict(cfg, State(st.files, map[], []), k);
  }

  // ---------- The digest ----------

  /** The digest of a consistent store is a function of the directory alone. */
  lemma {:induction false} DigestOfFiles(a: map<string, Entry>, b: map<string, Entry>)
    requires a.Keys == b.Keys && forall k :: k in a ==> a[k].hash == b[k].hash
    ensures Recomputed(a) == Recomputed(b)
    decreases |a|
  {
    hide Xor;
    if a != map[] {
      var k :| k in a;
      RecomputedWithout(a, k);
      RecomputedWithout(b, k);
      assert (a - {k}).Keys == (b - {k}).Keys == a.Keys - {k};
      MapSizes(a, k, a[k]);
      DigestOfFiles(a - {k}, b - {k});
    } else {
      assert b == map[];
    }
  }

  lemma SameFilesSameDigest(cfg: Config, a: State, b: State)
    requires Consistent(cfg, a) && Consistent(cfg, b) && a.files == b.files
    ensures Recomputed(a.entries) == Recomputed(b.entries)
  {
    DigestOfFiles(a.entries, b.entries);
  }

  // ---------- A reload that nothing disturbs ----------

  /** The entries of files as a walk tracks them, each at its time. */
  ghost function TrackedFiles(cfg: Config, files: map<string, string>, keys: seq<string>, now: string -> int): map<string, Entry> {
    map k | k in keys && k in files :: Entry(ExpirationOf(cfg.ttl, now(k), ExpiryOf(cfg, files[k])), cfg.sha(files[k]))
  }

  /** The tracker built anew from the directory. */
  ghost function Reloaded(cfg: Config, st: State, order: seq<string>, now: string -> int): State {
    State(st.files, TrackedFiles(cfg, st.files, order, now), order)
  }

  /** The rest of a reload, file by file. */
  ghost function ReadAll(cfg: Config, s: System, now: string -> int): System
    requires s.reload.Walking?
    decreases |s.reload.todo|
  {
    if s.reload.todo == [] then Next(cfg, s, FinishOp)
    else
      var read := Next(cfg, s, ReadOp(true));
      ReadAll(cfg, if read.reload.Holding? then Next(cfg, read, TrackOp(now(read.reload.key))) else read, now)
  }

  lemma OneMoreTracked(cfg: Config, files: map<string, string>, keys: seq<string>, k: string, now: string -> int)
    requires k in files && k !in keys
    ensures k !in TrackedFiles(cfg, files, keys, now)
    ensures TrackedFiles(cfg, files, keys + [k], now) ==
              TrackedFiles(cfg, files, keys, now)[k := Entry(ExpirationOf(cfg.ttl, now(k), ExpiryOf(cfg, files[k])), cfg.sha(files[k]))]
  {
  }

  lemma {:induction false} ReadAllTracks(cfg: Config, files: map<string, string>, order: seq<string>, i: nat, now: string -> int)
    requires Distinct(order) && i <= |order| && forall k :: k in order ==> k in files
    ensures ReadAll(cfg, System(State(files, TrackedFiles(cfg, files, order[..i], now), order[..i]), Walking(order[i..])), now)
            == System(State(files, TrackedFiles(cfg, files, order, now), order), Resting)
    decreases |order| - i
  {
    hide TrackedFiles, Distinct;
    if i == |order| {
      assert order[..i] == order && order[i..] == [];
    } else {
      DistinctAt(order, i);
      OneMoreTracked(cfg, files, order[..i], order[i], now);
      assert order[i..][0] == order[i] && order[i..][1..] == order[i + 1..];
      assert order[..i] + [order[i]] == order[..i + 1];
      ReadAllTracks(cfg, files, order, i + 1, now);
    }
  }

  lemma DistinctAt(s: seq<string>, i: nat)
    requires Distinct(s) && i < |s|
    ensures s[i] !in s[..i]
  {
  }

  /** A reload between whose steps nothing else happens builds the tracker anew
      from all files, in the order of the walk. */
  lemma UndisturbedReload(cfg: Config, st: State, order: seq<string>, now: string -> int)
    requires Walk(st, order)
    ensures var listed := Next(cfg, Next(cfg, System(st, Resting), ClearOp), ListOp(order));
            ReadAll(cfg, listed, now) == System(Reloaded(cfg, st, order, now), Resting)
  {
    hide ReadAll;
    assert TrackedFiles(cfg, st.files, order[..0], now) == map[] && order[..0] == [] && order[0..] == order;
    ReadAllTracks(cfg, st.files, order, 0, now);
  }

  lemma ReloadedIsConsistent(cfg: Config, st: State, order: seq<string>, now: string -> int)
    requires Walk(st, order)
    ensures Consistent(cfg, Reloaded(cfg, st, order, now))
  {
  }

  /** A reload in time of a directory that did not change gives the same digest, in
      whatever order the directory is walked and whatever is loaded meanwhile. */
  lemma ReloadKeepsDigest(cfg: Config, ss: seq<System>, ops: seq<Op>, m: nat, n: nat)
    requires Run(cfg, ss, ops) && m <= n <= |ops| && InFlight(cfg, ss[0]) && AllInTime(cfg, ss, ops)
    requires ss[m].reload.Resting? && ss[n].reload.Resting? && ss[n].st.files == ss[m].st.files
    ensures Recomputed(ss[n].st.entries) == Recomputed(ss[m].st.entries)
  {
    hide InFlight, Consistent;
    RunKeeps(cfg, ss, ops, m);
    RunKeeps(cfg, ss, ops, n);
    SameFilesSameDigest(cfg, ss[m].st, ss[n].st);
  }

  // ---------- Least recently used ----------

  /** The time of the last use of each key: a load that found its file, or a write
      that left it tracked. */
  function Used(used: map<string, int>, op: Op, st: State, st': State, t: int): map<string, int> {
    match op
    case LoadOp(k, _) => if k in st.files then used[k := t] else used
    case WriteOp(k, jwt, _, _) => if jwt != "" && k in st'.entries then used[k := t] else used
    case _ => used
  }

  /** The last use of each key before time `n`, in a run. */
  function LastUse(ss: seq<System>, ops: seq<Op>, start: map<string, int>, n: nat): map<string, int>
    requires |ss| == |ops| + 1 && n <= |ops|
  {
    if n == 0 then start else Used(LastUse(ss, ops, start, n - 1), ops[n - 1], ss[n - 1].st, ss[n].st, n)
  }

  /** The list is in the order of last use, and all uses are before `t`. */
  ghost predicate ByUse(lru: seq<string>, used: map<string, int>, t: int) {
    && (forall i :: 0 <= i < |lru| ==> lru[i] in used && used[lru[i]] < t)
    && (forall i, j :: 0 <= i < j < |lru| ==> lru[i] in used && lru[j] in used && used[lru[i]] < used[lru[j]])
  }

  lemma RestByUse(s: seq<string>, used: map<string, int>, t: int)
    requires ByUse(s, used, t) && s != []
    ensures ByUse(s[1..], used, t)
    ensures forall k :: k in s[1..] ==> k in used && s[0] in used && used[s[0]] < used[k]
  {
    assert forall i :: 0 <= i < |s[1..]| ==> s[1..][i] == s[i + 1];
  }

  lemma FirstByUse(first: string, rest: seq<string>, used: map<string, int>, t: int)
    requires ByUse(rest, used, t) && first in used && used[first] < t
    requires forall k :: k in rest ==> k in used && used[first] < used[k]
    ensures ByUse([first] + rest, used, t)
  {
    assert forall i :: 0 <= i < |rest| ==> rest[i] in rest;
  }

  lemma {:induction false} WithoutByUse(s: seq<string>, k: string, used: map<string, int>, t: int)
    requires Distinct(s) && ByUse(s, used, t)
    ensures ByUse(Without(s, k), used, t)
    decreases |s|
  {
    if s != [] {
      RestByUse(s, used, t);
      assert s[0] in used && used[s[0]] < t;
      hide ByUse;
      if s[0] != k {
        WithoutByUse(s[1..], k, used, t);
        WithoutKeeps(s[1..], k);
        FirstByUse(s[0], Without(s[1..], k), used, t);
      }
    }
  }

  lemma {:induction false} KeepByUse(s: seq<string>, gone: set<string>, used: map<string, int>, t: int)
    requires Distinct(s) && ByUse(s, used, t)
    ensures ByUse(Keep(s, gone), used, t)
    decreases |s|
  {
    if s != [] {
      RestByUse(s, used, t);
      assert s[0] in used && used[s[0]] < t;
      hide ByUse;
      KeepByUse(s[1..], gone, used, t);
      KeepKeeps(s[1..], gone);
      if s[0] !in gone {
        FirstByUse(s[0], Keep(s[1..], gone), used, t);
      } else {
        assert [] + Keep(s[1..], gone) == Keep(s[1..], gone);
      }
    }
  }

  /** Using a key now makes it the last of the list. */
  lemma UseByUse(s: seq<string>, k: string, used: map<string, int>, t: int)
    requires k !in s && ByUse(s, used, t)
    ensures ByUse(s + [k], used[k := t], t + 1)
  {
    assert forall i :: 0 <= i < |s| ==> s[i] != k;
  }

  lemma LaterByUse(s: seq<string>, used: map<string, int>, t: int)
    requires ByUse(s, used, t)
    ensures ByUse(s, used, t + 1)
  {
  }

  lemma UnlistedUse(s: seq<string>, k: string, used: map<string, int>, t: int)
    requires k !in s && ByUse(s, used, t)
    ensures ByUse(s, used[k := t], t + 1)
  {
  }

  /** The list holds exactly the tracked keys, each once. Every step keeps this,
      whether or not what is tracked agrees with the files. */
  ghost predicate EachOnce(st: State) {
    Distinct(st.lru) && forall k :: k in st.lru <==> k in st.entries
  }

  lemma TouchLists(cfg: Config, st: State, k: string, now: int)
    requires EachOnce(st)
    ensures EachOnce(Touch(cfg, st, k, now)) && Touch(cfg, st, k, now).entries.Keys == st.entries.Keys
  {
    WithoutKeeps(st.lru, k);
  }

  lemma TrackLists(cfg: Config, st: State, k: string, jwt: string, now: int)
    requires EachOnce(st)
    ensures EachOnce(Track(cfg, st, k, jwt, now))
  {
  }

  lemma DropLists(st: State, k: string)
    requires EachOnce(st)
    ensures EachOnce(Drop(st, k)) && Drop(st, k).entries.Keys == st.entries.Keys - {k}
  {
    WithoutKeeps(st.lru, k);
  }

  lemma WriteLists(cfg: Config, st: State, k: string, jwt: string, now: int, broken: set<string>)
    requires EachOnce(st)
    ensures EachOnce(Write(cfg, st, k, jwt, now, broken).0)
  {
    hide EachOnce, Touch, Put, Drop;
    if k in st.entries {
      TouchLists(cfg, st, k, now);
      PutLists(cfg, Touch(cfg, st, k, now), k, jwt, now);
    } else {
      PutLists(cfg, st, k, jwt, now);
      if st.lru != [] {
        DropLists(st, st.lru[0]);
        PutLists(cfg, Drop(st, st.lru[0]), k, jwt, now);
      }
    }
  }

  lemma PutLists(cfg: Config, st: State, k: string, jwt: string, now: int)
    requires EachOnce(st)
    ensures EachOnce(Put(cfg, st, k, jwt, now))
  {
  }

  lemma StepLists(cfg: Config, s: System, op: Op)
    requires EachOnce(s.st) && Enabled(s, op)
    ensures EachOnce(Next(cfg, s, op).st)
  {
    match op
    case LoadOp(k, now) => hide EachOnce, Touch; TouchLists(cfg, s.st, k, now);
    case WriteOp(k, jwt, now, broken) => hide EachOnce, Write; WriteLists(cfg, s.st, k, jwt, now, broken);
    case DeleteOp(k, _) => hide EachOnce, Drop; DropLists(s.st, k);
    case ExpireOp(_, gone) => KeepKeeps(s.st.lru, gone);
    case ClearOp =>
    case ListOp(order) =>
    case ReadOp(ok) =>
    case TrackOp(now) => hide EachOnce, Track; TrackLists(cfg, s.st, s.reload.key, s.reload.jwt, now);
    case FinishOp =>
  }

  lemma {:induction false} RunLists(cfg: Config, ss: seq<System>, ops: seq<Op>, n: nat)
    requires Run(cfg, ss, ops) && n <= |ops| && EachOnce(ss[0].st)
    ensures EachOnce(ss[n].st)
    decreases n
  {
    hide EachOnce, Next, Enabled;
    if n > 0 {
      RunLists(cfg, ss, ops, n - 1);
      assert Enabled(ss[n - 1], ops[n - 1]) && ss[n] == Next(cfg, ss[n - 1], ops[n - 1]);
      StepLists(cfg, ss[n - 1], ops[n - 1]);
    }
  }

  lemma TouchByUse(cfg: Config, st: State, k: string, now: int, used: map<string, int>, t: int)
    requires EachOnce(st) && cfg.evict && ByUse(st.lru, used, t)
    ensures ByUse(Touch(cfg, st, k, now).lru, used[k := t], t + 1)
  {
    if k in st.entries {
      WithoutByUse(st.lru, k, used, t);
      WithoutKeeps(st.lru, k);
      UseByUse(Without(st.lru, k), k, used, t);
    } else {
      UnlistedUse(st.lru, k, used, t);
    }
  }

  lemma DropByUse(st: State, k: string, used: map<string, int>, t: int)
    requires EachOnce(st) && ByUse(st.lru, used, t)
    ensures ByUse(Drop(st, k).lru, used, t)
  {
    WithoutByUse(st.lru, k, used, t);
  }

  /** Adding a key that is not tracked. */
  lemma AddByUse(cfg: Config, st: State, k: string, jwt: string, now: int, used: map<string, int>, t: int)
    requires EachOnce(st) && k !in st.entries && ByUse(st.lru, used, t)
    ensures ByUse(Put(cfg, st, k, jwt, now).lru, used[k := t], t + 1) && ByUse(st.lru, used[k := t], t + 1)
    ensures ByUse(st.lru, used, t + 1) && k in Put(cfg, st, k, jwt, now).entries
  {
    UseByUse(st.lru, k, used, t);
    UnlistedUse(st.lru, k, used, t);
    LaterByUse(st.lru, used, t);
  }

  lemma UpdateByUse(cfg: Config, st: State, k: string, jwt: string, now: int, used: map<string, int>, t: int)
    requires EachOnce(st) && cfg.evict && k in st.entries && ByUse(st.lru, used, t)
    ensures var touched := Touch(cfg, st, k, now);
            && k in touched.entries && k in Put(cfg, touched, k, jwt, now).entries
            && ByUse(touched.lru, used[k := t], t + 1) && ByUse(Put(cfg, touched, k, jwt, now).lru, used[k := t], t + 1)
  {
    hide ByUse, EachOnce;
    TouchByUse(cfg, st, k, now, used, t);
  }

  lemma EvictByUse(cfg: Config, st: State, gone: string, k: string, jwt: string, now: int, used: map<string, int>, t: int)
    requires EachOnce(st) && k !in st.entries && ByUse(st.lru, used, t)
    ensures ByUse(Put(cfg, Drop(st, gone), k, jwt, now).lru, used[k := t], t + 1) && k in Put(cfg, Drop(st, gone), k, jwt, now).entries
    ensures ByUse(Drop(st, gone).lru, used[k := t], t + 1) && ByUse(Drop(st, gone).lru, used, t + 1)
  {
    hide ByUse, EachOnce;
    DropLists(st, gone);
    DropByUse(st, gone, used, t);
    AddByUse(cfg, Drop(st, gone), k, jwt, now, used, t);
  }

  lemma WriteByUse(cfg: Config, st: State, k: string, jwt: string, now: int, broken: set<string>, used: map<string, int>, t: int)
    requires EachOnce(st) && cfg.evict && ByUse(st.lru, used, t)
    ensures var st' := Write(cfg, st, k, jwt, now, broken).0;
            ByUse(st'.lru, Used(used, WriteOp(k, jwt, now, broken), st, st', t), t + 1)
  {
    hide ByUse, EachOnce, Touch, Put, Drop;
    LaterByUse(st.lru, used, t);
    if k in st.entries {
      UpdateByUse(cfg, st, k, jwt, now, used, t);
    } else {
      AddByUse(cfg, st, k, jwt, now, used, t);
      if st.lru != [] { EvictByUse(cfg, st, st.lru[0], k, jwt, now, used, t); }
    }
  }

  /** A reload tracks a key at the end of the list: that is its place by use exactly
      when it was used after all keys tracked so far. */
  predicate InOrder(s: System, op: Op, used: map<string, int>) {
    op.TrackOp? && s.reload.Holding? && s.reload.key !in s.st.entries ==>
      && s.reload.key in used
      && forall i :: 0 <= i < |s.st.lru| ==> s.st.lru[i] in used && used[s.st.lru[i]] < used[s.reload.key]
  }

  ghost predicate UsedBefore(used: map<string, int>, t: int) { forall k :: k in used ==> used[k] < t }

  lemma TrackByUse(cfg: Config, s: System, now: int, used: map<string, int>, t: int)
    requires s.reload.Holding? && ByUse(s.st.lru, used, t) && UsedBefore(used, t)
    ensures ByUse(Next(cfg, s, TrackOp(now)).st.lru, used, t + 1) <==> InOrder(s, TrackOp(now), used)
  {
    var k, lru := s.reload.key, s.st.lru;
    if k !in s.st.entries {
      var more := lru + [k];
      assert more[|lru|] == k;
      if ByUse(more, used, t + 1) {
        forall i | 0 <= i < |lru| ensures lru[i] in used && used[lru[i]] < used[k] {
          assert more[i] == lru[i];
        }
      }
    }
  }

  /** In a cache every step keeps the list in the order of last use, exactly when a
      reload tracks keys in that order. */
  lemma StepByUse(cfg: Config, s: System, op: Op, used: map<string, int>, t: int)
    requires EachOnce(s.st) && cfg.evict && ByUse(s.st.lru, used, t) && UsedBefore(used, t) && Enabled(s, op)
    ensures var s' := Next(cfg, s, op);
            && (ByUse(s'.st.lru, Used(used, op, s.st, s'.st, t), t + 1) <==> InOrder(s, op, used))
            && UsedBefore(Used(used, op, s.st, s'.st, t), t + 1)
  {
    hide ByUse, EachOnce, Write, Touch;
    LaterByUse(s.st.lru, used, t);
    match op
    case LoadOp(k, now) => TouchByUse(cfg, s.st, k, now, used, t);
    case WriteOp(k, jwt, now, broken) => WriteByUse(cfg, s.st, k, jwt, now, broken, used, t);
    case DeleteOp(k, _) =>
      DropByUse(s.st, k, used, t);
      LaterByUse(Drop(s.st, k).lru, used, t);
    case ExpireOp(now, gone) =>
      ListIsDistinct(s.st);
      KeepByUse(s.st.lru, gone, used, t);
      LaterByUse(Keep(s.st.lru, gone), used, t);
    case ClearOp => NothingByUse(used, t + 1);
    case ListOp(order) =>
    case ReadOp(ok) =>
    case TrackOp(now) => TrackByUse(cfg, s, now, used, t);
    case FinishOp =>
  }

  lemma NothingByUse(used: map<string, int>, t: int)
    ensures ByUse([], used, t)
  {
  }

  lemma ListIsDistinct(st: State)
    requires EachOnce(st)
    ensures Distinct(st.lru)
  {
  }

  ghost predicate AllInOrder(ss: seq<System>, ops: seq<Op>, start: map<string, int>)
    requires |ss| == |ops| + 1
  {
    forall i :: 0 <= i < |ops| ==> InOrder(ss[i], ops[i], LastUse(ss, ops, start, i))
  }

  lemma {:induction false} UsesAreBefore(ss: seq<System>, ops: seq<Op>, start: map<string, int>, n: nat)
    requires |ss| == |ops| + 1 && n <= |ops| && UsedBefore(start, 1)
    ensures UsedBefore(LastUse(ss, ops, start, n), n + 1)
    decreases n
  {
    if n > 0 { UsesAreBefore(ss, ops, start, n - 1); }
  }

  lemma StepInOrder(cfg: Config, ss: seq<System>, ops: seq<Op>, start: map<string, int>, i: nat)
    requires Run(cfg, ss, ops) && EachOnce(ss[0].st) && cfg.evict && i < |ops| && UsedBefore(start, 1)
    requires ByUse(ss[i].st.lru, LastUse(ss, ops, start, i), i + 1)
    ensures ByUse(ss[i + 1].st.lru, LastUse(ss, ops, start, i + 1), i + 2) <==> InOrder(ss[i], ops[i], LastUse(ss, ops, start, i))
  {
    hide EachOnce, Next, ByUse, Used, UsedBefore, InOrder, Enabled;
    RunLists(cfg, ss, ops, i);
    UsesAreBefore(ss, ops, start, i);
    assert Enabled(ss[i], ops[i]) && ss[i + 1] == Next(cfg, ss[i], ops[i]);
    StepByUse(cfg, ss[i], ops[i], LastUse(ss, ops, start, i), i + 1);
  }

  lemma InOrderAt(ss: seq<System>, ops: seq<Op>, start: map<string, int>, i: nat)
    requires |ss| == |ops| + 1 && AllInOrder(ss, ops, start) && i < |ops|
    ensures InOrder(ss[i], ops[i], LastUse(ss, ops, start, i))
  {
  }

  /** In a cache the list stays in the order of last use through every run whose
      reloads track keys in that order. */
  lemma {:induction false} RunByUse(cfg: Config, ss: seq<System>, ops: seq<Op>, start: map<string, int>, n: nat)
    requires Run(cfg, ss, ops) && n <= |ops| && EachOnce(ss[0].st) && cfg.evict
    requires ByUse(ss[0].st.lru, start, 1) && UsedBefore(start, 1) && AllInOrder(ss, ops, start)
    ensures ByUse(ss[n].st.lru, LastUse(ss, ops, start, n), n + 1)
    decreases n
  {
    hide EachOnce, Next, ByUse, Used, UsedBefore, InOrder, Enabled;
    if n > 0 {
      RunByUse(cfg, ss, ops, start, n - 1);
      InOrderAt(ss, ops, start, n - 1);
      hide LastUse, AllInOrder;
      StepInOrder(cfg, ss, ops, start, n - 1);
    }
  }

  /** In a cache the list is in the order of last use in every state of a run exactly
      when every reload tracks keys in that order, in time or not. */
  lemma UseOrderIsExact(cfg: Config, ss: seq<System>, ops: seq<Op>, start: map<string, int>)
    requires Run(cfg, ss, ops) && EachOnce(ss[0].st) && cfg.evict
    requires ByUse(ss[0].st.lru, start, 1) && UsedBefore(start, 1)
    ensures (forall i: nat :: i <= |ops| ==> ByUse(ss[i].st.lru, LastUse(ss, ops, start, i), i + 1))
            <==> AllInOrder(ss, ops, start)
  {
    hide EachOnce, Next, ByUse, Used, UsedBefore, InOrder, Enabled;
    if AllInOrder(ss, ops, start) {
      forall i: nat | i <= |ops| ensures ByUse(ss[i].st.lru, LastUse(ss, ops, start, i), i + 1) {
        RunByUse(cfg, ss, ops, start, i);
      }
    }
    if forall i: nat :: i <= |ops| ==> ByUse(ss[i].st.lru, LastUse(ss, ops, start, i), i + 1) {
      forall i: nat | i < |ops| ensures InOrder(ss[i], ops[i], LastUse(ss, ops, start, i)) {
        StepInOrder(cfg, ss, ops, start, i);
      }
    }
  }

  /** Over such a run, a write that evicts a key evicts the one whose last use is
      oldest among those tracked; and among all files when every reload was in time
      and none is running. */
  lemma EvictsOldestUse(cfg: Config, ss: seq<System>, ops: seq<Op>, start: map<string, int>, n: nat, k: string)
    requires Run(cfg, ss, ops) && n < |ops| && EachOnce(ss[0].st) && cfg.evict
    requires ByUse(ss[0].st.lru, start, 1) && UsedBefore(start, 1) && AllInOrder(ss, ops, start)
    requires ops[n].WriteOp? && k in ss[n].st.files && k !in ss[n + 1].st.files
    ensures var used := LastUse(ss, ops, start, n);
            && k in used
            && (forall other :: other in ss[n].st.entries ==> other in used && used[k] <= used[other])
            && (InFlight(cfg, ss[0]) && AllInTime(cfg, ss, ops) && ss[n].reload.Resting? ==>
                  forall other :: other in ss[n].st.files ==> other in used && used[k] <= used[other])
  {
    hide EachOnce, Write, ByUse, LastUse, AllInTime, AllInOrder, InFlight, Partial;
    RunLists(cfg, ss, ops, n);
    RunByUse(cfg, ss, ops, start, n);
    var op, st := ops[n], ss[n].st;
    assert Enabled(ss[n], op) && ss[n + 1] == Next(cfg, ss[n], op);
    OnlyFirstIsEvicted(cfg, st, op.key, op.jwt, op.now, op.broken, k);
    FirstIsOldest(st, LastUse(ss, ops, start, n), n + 1);
    if InFlight(cfg, ss[0]) && AllInTime(cfg, ss, ops) { RunKeeps(cfg, ss, ops, n); }
  }

  lemma OnlyFirstIsEvicted(cfg: Config, st: State, key: string, jwt: string, now: int, broken: set<string>, k: string)
    requires k in st.files && k !in Write(cfg, st, key, jwt, now, broken).0.files
    ensures st.lru != [] && k == st.lru[0] && MustEvict(cfg, st, key) && cfg.evict
  {
  }

  lemma FirstIsOldest(st: State, used: map<string, int>, t: int)
    requires EachOnce(st) && ByUse(st.lru, used, t) && st.lru != []
    ensures st.lru[0] in used && forall k :: k in st.entries ==> k in used && used[st.lru[0]] <= used[k]
  {
    forall k | k in st.entries ensures k in used && used[st.lru[0]] <= used[k] {
      assert k in st.lru;
      var i :| 0 <= i < |st.lru| && st.lru[i] == k;
    }
  }

  /** A reload of a store that nothing else uses leaves the list in the order of
      last use exactly when the walk takes the files in the order of the list. */
  lemma ReloadKeepsOrder(cfg: Config, st: State, order: seq<string>, now: string -> int, used: map<string, int>, t: int)
    requires Consistent(cfg, st) && ByUse(st.lru, used, t) && Walk(st, order)
    ensures ByUse(Reloaded(cfg, st, order, now).lru, used, t) <==> order == st.lru
  {
    if ByUse(order, used, t) { SameOrder(order, st.lru, used, t); }
  }

  /** Two lists of the same keys in the order of use are the same. */
  lemma {:induction false} SameOrder(a: seq<string>, b: seq<string>, used: map<string, int>, t: int)
    requires ByUse(a, used, t) && ByUse(b, used, t) && forall k :: k in a <==> k in b
    ensures a == b
    decreases |a|
  {
    if a == [] {
      SomeMember(b);
    } else {
      assert a[0] in b && b != [] && b[0] in a;
      var i :| 0 <= i < |b| && b[i] == a[0];
      var j :| 0 <= j < |a| && a[j] == b[0];
      assert a[0] == b[0];
      RestByUse(a, used, t);
      RestByUse(b, used, t);
      assert forall k :: k in a <==> k == a[0] || k in a[1..];
      assert forall k :: k in b <==> k == b[0] || k in b[1..];
      SameOrder(a[1..], b[1..], used, t);
      assert a == [a[0]] + a[1..] && b == [b[0]] + b[1..];
    }
  }

  lemma SomeMember(s: seq<string>)
    ensures s != [] ==> exists k :: k in s
  {
    assert s != [] ==> s[0] in s;
  }

  // ---------- What a write reports ----------

  /** A write that reports a change has stored just this JWT under its key. One that
      reports none has changed no file, as the key is tracked with this JWT's hash. One
      that fails has left the file of its key alone. */
  lemma WriteReports(cfg: Config, st: State, k: string, jwt: string, now: int, broken: set<string>)
    ensures var (st', w) := Write(cfg, st, k, jwt, now, broken);
            && (w.Changed? ==> k in st'.files && st'.files[k] == jwt && k in st'.entries && st'.entries[k].hash == cfg.sha(jwt))
            && (w.Unchanged? <==> jwt != "" && k in st.entries && st.entries[k].hash == cfg.sha(jwt))
            && (w.Unchanged? ==> st'.files == st.files)
            && (w.Failed? && k in st'.files ==> k in st.files && st'.files[k] == st.files[k])
            && (jwt == "" || (!w.Unchanged? && k in broken) ==> w.Failed?)
  {
  }

  // ---------- When a tracked JWT expires ----------

  const LARGEST := 0x7fff_ffff_ffff_ffff

  /** `x` is the 64-bit integer that the sum or product `n` comes to. */
  ghost predicate Comes(n: int, x: int) {
    -LARGEST - 1 <= x <= LARGEST && (n - x) % 0x1_0000_0000_0000_0000 == 0
  }

  lemma ComesToWrap(n: int, x: int)
    requires Comes(n, x)
    ensures Wrap64(n) == x
  {
    var q := (n - x) / TWO_64;
    assert n == q * TWO_64 + x;
    if x >= 0 { assert n % TWO_64 == x; } else { assert n % TWO_64 == x + TWO_64; }
  }

  /** A tracked JWT without a time to live expires at its claim, in nanoseconds, or
      never when it has none. */
  lemma TrackedExpiresByClaim(cfg: Config, st: State, k: string, jwt: string, now: int, later: int, x: int)
    requires cfg.ttl == 0 && later < LARGEST
    ensures var st' := Track(cfg, st, k, jwt, now);
            && (cfg.decode(jwt).None? ==> k !in Expired(st', later))
            && (cfg.decode(jwt).Some? && Comes(cfg.decode(jwt).value.expires * 1_000_000_000, x) ==>
                  (k in Expired(st', later) <==> x != 0 && x <= later))
  {
    if cfg.decode(jwt).Some? && Comes(cfg.decode(jwt).value.expires * 1_000_000_000, x) {
      ComesToWrap(cfg.decode(jwt).value.expires * 1_000_000_000, x);
    }
  }

  /** With a time to live it expires that long after it was tracked, whatever it claims,
      or never with the largest one. */
  lemma TrackedExpiresByTtl(cfg: Config, st: State, k: string, jwt: string, now: int, later: int, x: int)
    requires cfg.ttl != 0 && later < LARGEST
    ensures var st' := Track(cfg, st, k, jwt, now);
            && (cfg.ttl == LARGEST ==> k !in Expired(st', later))
            && (cfg.ttl != LARGEST && Comes(now + cfg.ttl, x) ==> (k in Expired(st', later) <==> x <= later))
  {
    if Comes(now + cfg.ttl, x) { ComesToWrap(now + cfg.ttl, x); }
  }

  /** After a write that stores it, a JWT is expired exactly from its claim on when there
      is no time to live, and exactly from the end of its time to live otherwise, when
      these fit 64 bits. */
  lemma WrittenExpires(cfg: Config, st: State, k: string, jwt: string, now: int, broken: set<string>, later: int)
    requires Write(cfg, st, k, jwt, now, broken).1.Changed? && later < LARGEST
    ensures var gone := k in Expired(Write(cfg, st, k, jwt, now, broken).0, later);
            && (cfg.ttl == 0 && (cfg.decode(jwt).None? || cfg.decode(jwt).value.expires == 0) ==> !gone)
            && (cfg.ttl == 0 && cfg.decode(jwt).Some? && 0 < cfg.decode(jwt).value.expires * 1_000_000_000 <= LARGEST ==>
                  (gone <==> cfg.decode(jwt).value.expires * 1_000_000_000 <= later))
            && (cfg.ttl == LARGEST ==> !gone)
            && (0 < cfg.ttl < LARGEST && 0 <= now && now + cfg.ttl <= LARGEST ==> (gone <==> now + cfg.ttl <= later))
  {
    var before := WrittenOn(cfg, st, k, now);
    WriteTracks(cfg, st, k, jwt, now, broken);
    hide Write, Track, Expired, WrittenOn;
    var sum := if cfg.ttl != 0 then now + cfg.ttl
               else if cfg.decode(jwt).Some? then cfg.decode(jwt).value.expires * 1_000_000_000 else 0;
    if cfg.ttl == 0 {
      TrackedExpiresByClaim(cfg, before.(files := before.files[k := jwt]), k, jwt, now, later, sum);
    } else {
      TrackedExpiresByTtl(cfg, before.(files := before.files[k := jwt]), k, jwt, now, later, sum);
    }
  }

  /** The state that a write stores its JWT in: renewed or with room made. */
  function WrittenOn(cfg: Config, st: State, k: string, now: int): State {
    if k in st.entries then Touch(cfg, st, k, now)
    else if MustEvict(cfg, st, k) && st.lru != [] then Drop(st, st.lru[0]) else st
  }

  lemma WriteTracks(cfg: Config, st: State, k: string, jwt: string, now: int, broken: set<string>)
    requires Write(cfg, st, k, jwt, now, broken).1.Changed?
    ensures var before := WrittenOn(cfg, st, k, now);
            Write(cfg, st, k, jwt, now, broken).0 == Track(cfg, before.(files := before.files[k := jwt]), k, jwt, now)
  {
    hide Touch, Drop, Track;
  }

  /** A tracked key that is renewed expires its time to live later, if that fits 64 bits;
      without one its expiration stays. */
  lemma RenewedExpires(cfg: Config, st: State, k: string, now: int, later: int)
    requires k in st.entries
    ensures var gone := k in Expired(Touch(cfg, st, k, now), later);
            && (cfg.ttl == 0 ==> (gone <==> k in Expired(st, later)))
            && (0 < cfg.ttl <= LARGEST && 0 <= now && now + cfg.ttl <= LARGEST ==> (gone <==> now + cfg.ttl <= later))
  {
    if 0 < cfg.ttl <= LARGEST && 0 <= now && now + cfg.ttl <= LARGEST { ComesToWrap(now + cfg.ttl, now + cfg.ttl); }
  }

  // ---------- Time to live ----------

  lemma SumOutlives(ttl: int, now: int)
    requires 0 <= now <= MAX_INT64 && 0 < ttl <= MAX_INT64
    ensures now < Wrap64(now + ttl) <==> now + ttl <= MAX_INT64
  {
    assert (now + ttl) % TWO_64 == now + ttl;
  }

  /** A tracked key that is renewed has not expired at that moment exactly when the sum
      of clock and time to live fits 64 bits. */
  lemma RenewalOutlivesNow(cfg: Config, st: State, k: string, now: int)
    requires k in st.entries && 0 <= now <= MAX_INT64 && 0 < cfg.ttl <= MAX_INT64
    ensures k !in Expired(Touch(cfg, st, k, now), now) <==> now + cfg.ttl <= MAX_INT64
  {
    SumOutlives(cfg.ttl, now);
  }

  /** The largest time to live is documented to disable expiration. A stored key
      then never expires, until it is loaded: from then on it counts as expired
      at any time after the epoch. */
  lemma LoadExpiresTheUnexpiring(cfg: Config, st: State, k: string, jwt: string, now: int)
    requires cfg.ttl == MAX_INT64 && 0 < now < MAX_INT64
    ensures k !in Expired(Put(cfg, st, k, jwt, now), now)
    ensures k in Expired(Touch(cfg, Put(cfg, st, k, jwt, now), k, now), now)
  {
    RenewalOutlivesNow(cfg, Put(cfg, st, k, jwt, now), k, now);
  }
}
