/** The intra-process queue: producers append under a lock and signal a channel
    of one slot after unlocking. Sizes are 64-bit sums that wrap around. */
module IpQueue {
  import opened Int64
  import opened Optional

  /** Options: a size function, and limits on size and length (0 is no limit).
      A size is a 64-bit value. */
  datatype Options<!T> = Options(measure: Option<T -> nat>, msz: nat, mlen: nat)

  /** The size of all elements, without wrap-around. */
  function Size<T>(o: Options<T>, s: seq<T>): nat {
    if o.measure.None? || s == [] then 0 else o.measure.value(s[0]) + Size(o, s[1..])
  }

  datatype Verdict = Accepted | LenLimit | SizeLimit

  /** Whether `push` takes `e`, given the length and the wrapped size so far. */
  function Admit<T>(o: Options<T>, len: nat, sz: nat, e: T): Verdict {
    if o.mlen > 0 && len == o.mlen then LenLimit
    else if o.measure.Some? && o.msz > 0 && (sz + o.measure.value(e)) % TWO_64 > o.msz then SizeLimit
    else Accepted
  }

  lemma {:induction false} SizeAppend<T>(o: Options<T>, s: seq<T>, t: seq<T>)
    ensures Size(o, s + t) == Size(o, s) + Size(o, t)
    decreases |s|
  {
    if s == [] {
      assert s + t == t;
    } else {
      assert (s + t)[1..] == s[1..] + t;
      SizeAppend(o, s[1..], t);
    }
  }

  lemma PushedSize<T>(o: Options<T>, s: seq<T>, e: T)
    ensures Size(o, s + [e]) % TWO_64 ==
              if o.measure.Some? then (Size(o, s) % TWO_64 + o.measure.value(e)) % TWO_64 else Size(o, s) % TWO_64
  {
    SizeAppend(o, s, [e]);
    assert [e][1..] == [];
    WrappedSum(Size(o, s), Size(o, [e]));
  }

  lemma PoppedSize<T>(o: Options<T>, s: seq<T>)
    requires s != []
    ensures Size(o, s[1..]) % TWO_64 ==
              if o.measure.Some? then (Size(o, s) % TWO_64 - o.measure.value(s[0])) % TWO_64 else Size(o, s) % TWO_64
    ensures Size<T>(o, []) == 0
  {
    if o.measure.Some? { WrappedDifference(o.measure.value(s[0]), Size(o, s[1..])); }
  }

  function Total(lengths: seq<nat>): nat {
    if lengths == [] then 0 else lengths[0] + Total(lengths[1..])
  }

  class Queue<T(==)> {
    var elts: seq<T>
    var pos: nat
    var sz: nat
    var signal: bool  // the one slot of the channel
    var inprogress: int
    const o: Options<T>
    ghost var out: seq<nat>  // lengths of the slices popped and not yet recycled

    ghost predicate Valid()
      reads this
    {
      && pos <= |elts|
      && sz == Size(o, Contents()) % TWO_64
      && (o.mlen > 0 ==> |Contents()| <= o.mlen)
      && inprogress == Total(out)
    }

    function Contents(): seq<T>
      reads this
    {
      if pos <= |elts| then elts[pos..] else []
    }

    constructor (o: Options<T>)
      ensures Valid() && Contents() == [] && !signal && out == [] && this.o == o
    {
      elts, pos, sz, signal, inprogress := [], 0, 0, false, 0;
      this.o := o;
      out := [];
    }

    /** Add at the end. The length after the push is returned; a refused element
        changes nothing. */
    method Push(e: T) returns (n: nat, v: Verdict)
      requires Valid()
      modifies this
      ensures Valid() && out == old(out)
      ensures v == Admit(o, old(|Contents()|), old(sz), e)
      ensures v.Accepted? ==> Contents() == old(Contents()) + [e] && n == |Contents()|
      ensures !v.Accepted? ==> Contents() == old(Contents()) && n == |Contents()|
      ensures signal == (old(signal) || (v.Accepted? && old(Contents()) == []))
    {
      var l := |elts| - pos;
      n := l;
      if o.mlen > 0 && l == o.mlen {
        return n, LenLimit;
      }
      hide Size;
      ghost var before := Contents();
      PushedSize(o, before, e);
      if o.measure.Some? {
        var s := o.measure.value(e);
        if o.msz > 0 && (sz + s) % TWO_64 > o.msz {
          return n, SizeLimit;
        }
        sz := (sz + s) % TWO_64;
      }
      elts := elts + [e];
      assert Contents() == before + [e];
      if l == 0 {
        signal := true;
      }
      return l + 1, Accepted;
    }

    /** Take everything. */
    method Pop() returns (all: seq<T>)
      requires Valid()
      modifies this
      ensures Valid() && all == old(Contents()) && Contents() == [] && signal == old(signal)
      ensures out == if all == [] then old(out) else [|all|] + old(out)
    {
      if |elts| - pos == 0 {
        return [];
      }
      all := elts[pos..];
      elts, pos, sz := [], 0, 0;
      inprogress := inprogress + |all|;
      out := [|all|] + out;
    }

    /** Take the first element; signal again if more are left. */
    method PopOne() returns (e: Option<T>)
      requires Valid()
      modifies this
      ensures Valid() && out == old(out)
      ensures e.None? <==> old(Contents()) == []
      ensures e.Some? ==> [e.value] + Contents() == old(Contents())
      ensures e.None? ==> Contents() == []
      ensures signal == (old(signal) || Contents() != [])
    {
      var l := |elts| - pos;
      if l == 0 {
        return None;
      }
      ghost var before := Contents();
      var first := elts[pos];
      assert before == [first] + before[1..];
      PoppedSize(o, before);
      hide Size;
      if l > 1 {
        pos := pos + 1;
        assert Contents() == before[1..];
        if o.measure.Some? {
          sz := (sz - o.measure.value(first)) % TWO_64;
        }
        signal := true;
      } else {
        elts, pos, sz := [], 0, 0;
        assert before[1..] == [];
      }
      return Some(first);
    }

    /** Give back a slice of `n` elements that was popped. */
    method Recycle(n: nat, ghost i: nat)
      requires Valid() && i < |out| && out[i] == n
      modifies this`inprogress, this`out
      ensures Valid() && out == old(out)[..i] + old(out)[i + 1..]
    {
      TotalWithout(out, i);
      inprogress := inprogress - n;
      out := out[..i] + out[i + 1..];
    }

    /** Empty the queue and take back the signal. */
    method Drain() returns (n: nat)
      requires Valid()
      modifies this
      ensures Valid() && n == old(|Contents()|) && Contents() == [] && !signal && out == old(out)
    {
      n := |elts| - pos;
      elts, pos, sz := [], 0, 0;
      signal := false;
    }
  }

  lemma WrappedSum(a: nat, b: nat)
    ensures (a % TWO_64 + b) % TWO_64 == (a + b) % TWO_64
  {
  }

  lemma WrappedDifference(a: nat, b: nat)
    ensures ((a + b) % TWO_64 - a) % TWO_64 == b % TWO_64
  {
  }

  lemma {:induction false} TotalWithout(s: seq<nat>, i: nat)
    requires i < |s|
    ensures Total(s[..i] + s[i + 1..]) == Total(s) - s[i]
    decreases |s|
  {
    if i == 0 {
      assert s[..0] + s[1..] == s[1..];
    } else {
      var t := s[..i] + s[i + 1..];
      assert t[0] == s[0] && t[1..] == s[1..][..i - 1] + s[1..][i..];
      TotalWithout(s[1..], i - 1);
    }
  }

  // ---------- Interleavings ----------

  /** Where a thread stands: about to signal after an append, or told by the
      channel that there is something and not yet popping. */
  datatype Pc = Idle | Signalling | Notified

  /** Critical sections and channel operations are separate steps of threads.
      `pushed` and `taken` are all elements ever accepted and ever removed. */
  datatype System<T> = System(contents: seq<T>, sz: nat, signal: bool, pcs: map<nat, Pc>, pushed: seq<T>, taken: seq<T>)

  datatype Action<T> =
    | Append(thread: nat, e: T)
    | Signal(thread: nat)
    | Receive(thread: nat)
    | PopAll(thread: nat)
    | PopFirst(thread: nat)
    | DrainAll(thread: nat)

  /** Whether a thread can take a step now. */
  predicate Enabled<T>(s: System<T>, a: Action<T>) {
    && a.thread in s.pcs
    && match a
       case Signal(t) => s.pcs[t].Signalling?
       case Receive(t) => s.pcs[t].Idle? && s.signal
       case PopAll(t) => !s.pcs[t].Signalling?
       case PopFirst(t) => !s.pcs[t].Signalling?
       case Append(t, _) => s.pcs[t].Idle?
       case DrainAll(t) => s.pcs[t].Idle?
  }

  function Next<T>(o: Options<T>, s: System<T>, a: Action<T>): System<T>
    requires Enabled(s, a)
  {
    match a
    case Append(t, e) =>
      if !Admit(o, |s.contents|, s.sz, e).Accepted? then s
      else
        s.(contents := s.contents + [e], pushed := s.pushed + [e],
           sz := if o.measure.Some? then (s.sz + o.measure.value(e)) % TWO_64 else s.sz,
           pcs := s.pcs[t := if s.contents == [] then Signalling else Idle])
    case Signal(t) => s.(signal := true, pcs := s.pcs[t := Idle])
    case Receive(t) => s.(signal := false, pcs := s.pcs[t := Notified])
    case PopAll(t) => s.(contents := [], sz := 0, taken := s.taken + s.contents, pcs := s.pcs[t := Idle])
    case PopFirst(t) =>
      var pcs := s.pcs[t := Idle];
      if s.contents == [] then s.(pcs := pcs)
      else if |s.contents| == 1 then s.(contents := [], sz := 0, taken := s.taken + s.contents, pcs := pcs)
      else
        s.(contents := s.contents[1..], taken := s.taken + s.contents[..1], signal := true, pcs := pcs,
           sz := if o.measure.Some? then (s.sz - o.measure.value(s.contents[0])) % TWO_64 else s.sz)
    case DrainAll(_) => s.(contents := [], sz := 0, taken := s.taken + s.contents, signal := false)
  }

  /** No lost wakeup: when something is queued, the channel holds a signal, or a
      producer is about to signal, or a consumer took the signal and has yet to
      pop. */
  ghost predicate Awake<T>(s: System<T>) {
    s.contents != [] ==> s.signal || exists t :: t in s.pcs && !s.pcs[t].Idle?
  }

  /** First in, first out, with nothing lost or made up; sizes and lengths add up. */
  ghost predicate Sound<T>(o: Options<T>, s: System<T>) {
    && s.pushed == s.taken + s.contents
    && s.sz == Size(o, s.contents) % TWO_64
    && (o.mlen > 0 ==> |s.contents| <= o.mlen)
  }

  lemma NextIsAwake<T>(o: Options<T>, s: System<T>, a: Action<T>)
    requires Awake(s) && Enabled(s, a)
    ensures Awake(Next(o, s, a))
  {
    var s' := Next(o, s, a);
    match a
    case Append(t, e) =>
      if s'.contents != [] && s.contents == [] {
        assert t in s'.pcs && s'.pcs[t].Signalling?;
      } else if s'.contents != [] && !s'.signal {
        var u :| u in s.pcs && !s.pcs[u].Idle?;
        assert u in s'.pcs && !s'.pcs[u].Idle?;
      }
    case Signal(t) =>
    case Receive(t) => assert t in s'.pcs && s'.pcs[t].Notified?;
    case PopAll(t) =>
    case PopFirst(t) =>
    case DrainAll(t) =>
  }

  lemma AppendIsSound<T>(o: Options<T>, s: System<T>, a: Action<T>)
    requires Sound(o, s) && Enabled(s, a) && a.Append?
    ensures Sound(o, Next(o, s, a))
  {
    var e := a.e;
    PushedSize(o, s.contents, e);
    assert s.taken + (s.contents + [e]) == s.taken + s.contents + [e];
  }

  lemma PopFirstIsSound<T>(o: Options<T>, s: System<T>, a: Action<T>)
    requires Sound(o, s) && Enabled(s, a) && a.PopFirst?
    ensures Sound(o, Next(o, s, a))
  {
    if |s.contents| > 1 {
      assert s.taken + s.contents[..1] + s.contents[1..] == s.taken + s.contents;
      PoppedSize(o, s.contents);
    } else {
      assert s.taken + s.contents + [] == s.taken + s.contents;
    }
  }

  lemma NextIsSound<T>(o: Options<T>, s: System<T>, a: Action<T>)
    requires Sound(o, s) && Enabled(s, a)
    ensures Sound(o, Next(o, s, a))
  {
    match a
    case Append(t, e) => AppendIsSound(o, s, a);
    case PopFirst(t) => PopFirstIsSound(o, s, a);
    case Signal(t) =>
    case Receive(t) =>
    case PopAll(t) => assert s.taken + s.contents + [] == s.taken + s.contents;
    case DrainAll(t) => assert s.taken + s.contents + [] == s.taken + s.contents;
  }

  /** A run of any threads in any order. */
  ghost predicate Run<T>(o: Options<T>, states: seq<System<T>>, actions: seq<Action<T>>) {
    && |states| == |actions| + 1
    && forall i :: 0 <= i < |actions| ==> Enabled(states[i], actions[i]) && states[i + 1] == Next(o, states[i], actions[i])
  }

  predicate Fresh<T>(s: System<T>) {
    s.contents == [] && s.sz == 0 && s.pushed == [] && s.taken == []
  }

  /** In every state of every interleaving no wakeup is lost and the queue is a
      first-in first-out sequence of what was pushed. */
  lemma {:induction false} RunIsAwakeAndSound<T>(o: Options<T>, states: seq<System<T>>, actions: seq<Action<T>>, n: nat)
    requires Run(o, states, actions) && n <= |actions| && Fresh(states[0])
    ensures Awake(states[n]) && Sound(o, states[n])
    decreases n
  {
    if n > 0 {
      RunIsAwakeAndSound(o, states, actions, n - 1);
      NextIsAwake(o, states[n - 1], actions[n - 1]);
      NextIsSound(o, states[n - 1], actions[n - 1]);
    }
  }

  /** When all threads rest, a queue with something in it has its signal set:
      any thread that listens can go on. */
  lemma RestingQueueIsSignalled<T>(o: Options<T>, states: seq<System<T>>, actions: seq<Action<T>>, n: nat, listener: nat)
    requires Run(o, states, actions) && n <= |actions| && Fresh(states[0])
    requires states[n].contents != [] && listener in states[n].pcs
    requires forall t :: t in states[n].pcs ==> states[n].pcs[t].Idle?
    ensures Enabled(states[n], Receive(listener))
  {
    RunIsAwakeAndSound(o, states, actions, n);
  }

  // ---------- The size limit ----------

  /** An accepted element keeps the queue within its size limit exactly when the
      sum of sizes does not wrap around. */
  lemma SizeLimitHolds<T>(o: Options<T>, contents: seq<T>, e: T)
    requires o.measure.Some? && 0 < o.msz < TWO_64 && Size(o, contents) <= o.msz
    requires Admit(o, |contents|, Size(o, contents), e).Accepted?
    ensures Size(o, contents + [e]) <= o.msz <==> Size(o, contents) + o.measure.value(e) < TWO_64
  {
    SizeAppend(o, contents, [e]);
    assert [e][1..] == [];
  }

  /** Elements this small never make the sum wrap around. */
  predicate Small<T>(o: Options<T>, e: T)
    requires o.measure.Some?
  {
    o.measure.value(e) + o.msz < TWO_64
  }

  lemma NextStaysWithinSize<T>(o: Options<T>, s: System<T>, a: Action<T>)
    requires Sound(o, s) && Enabled(s, a) && o.measure.Some? && 0 < o.msz && Size(o, s.contents) <= o.msz < TWO_64
    requires a.Append? ==> Small(o, a.e)
    ensures Size(o, Next(o, s, a).contents) <= o.msz
  {
    if a.Append? && Admit(o, |s.contents|, s.sz, a.e).Accepted? {
      SizeLimitHolds(o, s.contents, a.e);
    }
  }

  /** Over every run that only pushes such elements, the size limit holds. */
  lemma {:induction false} RunStaysWithinSize<T>(o: Options<T>, states: seq<System<T>>, actions: seq<Action<T>>, n: nat)
    requires Run(o, states, actions) && n <= |actions| && Fresh(states[0])
    requires o.measure.Some? && 0 < o.msz < TWO_64
    requires forall i :: 0 <= i < |actions| && actions[i].Append? ==> Small(o, actions[i].e)
    ensures Size(o, states[n].contents) <= o.msz
    decreases n
  {
    if n > 0 {
      RunStaysWithinSize(o, states, actions, n - 1);
      RunIsAwakeAndSound(o, states, actions, n - 1);
      NextStaysWithinSize(o, states[n - 1], actions[n - 1]);
    }
  }

  const SELF_SIZED: Options<nat> := Options(Some((n: nat) => n), 10, 0)

  /** With a larger element the limit can be passed: the sum wraps around and
      looks small. */
  lemma SizeLimitWraps(big: nat)
    requires big == TWO_64 - 1
    ensures var o := SELF_SIZED;
            && Size(o, [5]) <= o.msz
            && Admit(o, 1, Size(o, [5]), big).Accepted?
            && Size(o, [5] + [big]) > o.msz
  {
    var o := SELF_SIZED;
    var five: seq<nat> := [5];
    assert five[1..] == [] && [big][1..] == [];
    SizeAppend(o, five, [big]);
  }

  // ---------- What is refused ----------

  /** A queue with a length limit refuses an element exactly when it holds that many. One
      with a size limit refuses it otherwise exactly when its elements and the new one
      together measure more, as long as that fits 64 bits. */
  lemma RefusesExactly<T>(o: Options<T>, contents: seq<T>, e: T)
    requires o.mlen > 0 ==> |contents| <= o.mlen
    requires Size(o, contents + [e]) < 0x1_0000_0000_0000_0000
    ensures var v := Admit(o, |contents|, Size(o, contents) % TWO_64, e);
            && (v.LenLimit? <==> o.mlen > 0 && |contents| >= o.mlen)
            && (v.SizeLimit? <==> !v.LenLimit? && o.measure.Some? && o.msz > 0 && Size(o, contents + [e]) > o.msz)
  {
    SizeAppend(o, contents, [e]);
    assert [e][1..] == [];
    FitsAsIs(Size(o, contents));
    FitsAsIs(Size(o, contents + [e]));
    hide Size;
  }

  lemma FitsAsIs(n: nat)
    requires n < 0x1_0000_0000_0000_0000
    ensures n % TWO_64 == n
  {
  }
}
