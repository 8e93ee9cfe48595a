/** Weighted subject mappings: destinations with weights in percent, turned into
    prefix sums that a draw from 0..99 is looked up in. Weights are 8-bit. */
module WeightedMapping {

  datatype MapDest = MapDest(subject: string, weight: nat, cluster: string)
  datatype Destination = Destination(subject: string, weight: nat)

  /** 8-bit addition. */
  function Add8(a: nat, b: nat): nat { (a + b) % 256 }

  function Sum(ds: seq<Destination>): nat {
    if ds == [] then 0 else ds[0].weight + Sum(ds[1..])
  }

  // ---------- Accepting a weight list ----------

  /** The destinations of one cluster, in order. */
  function Of(ds: seq<MapDest>, cluster: string): seq<Destination> {
    if ds == [] then [] else One(ds[0], cluster) + Of(ds[1..], cluster)
  }

  function One(d: MapDest, cluster: string): seq<Destination> {
    if d.cluster == cluster then [Destination(d.subject, d.weight)] else []
  }

  /** A list is accepted if no subject is repeated, no weight is above 100, no
      cluster's weights exceed 100 in total, and every subject can be mapped. */
  ghost predicate Acceptable(ds: seq<MapDest>, mappable: string -> bool) {
    && (forall i, j :: 0 <= i < j < |ds| ==> ds[i].subject != ds[j].subject)
    && (forall i :: 0 <= i < |ds| ==> ds[i].weight <= 100 && mappable(ds[i].subject))
    && (forall c :: Sum(Of(ds, c)) <= 100)
  }

  lemma {:induction false} OfAppend(a: seq<MapDest>, b: seq<MapDest>, c: string)
    ensures Of(a + b, c) == Of(a, c) + Of(b, c)
    decreases |a|
  {
    hide One;
    if a == [] {
      assert a + b == b;
    } else {
      assert (a + b)[1..] == a[1..] + b && (a + b)[0] == a[0];
      OfAppend(a[1..], b, c);
      assert Of(a + b, c) == One(a[0], c) + Of(a[1..] + b, c);
    }
  }

  lemma {:induction false} SumAppend(a: seq<Destination>, b: seq<Destination>)
    ensures Sum(a + b) == Sum(a) + Sum(b)
    decreases |a|
  {
    if a == [] {
      assert a + b == b;
    } else {
      assert (a + b)[1..] == a[1..] + b;
      SumAppend(a[1..], b);
    }
  }

  /** What one more destination adds to each cluster. */
  lemma OfOneMore(a: seq<MapDest>, d: MapDest, c: string)
    ensures Of(a + [d], c) == if d.cluster == c then Of(a, c) + [Destination(d.subject, d.weight)] else Of(a, c)
    ensures Sum(Of(a + [d], c)) == Sum(Of(a, c)) + (if d.cluster == c then d.weight else 0)
  {
    OfAppend(a, [d], c);
    assert [d][1..] == [];
    SumAppend(Of(a, c), Of([d], c));
    if d.cluster == c { assert [Destination(d.subject, d.weight)][1..] == []; }
  }

  /** When a list stays acceptable with one more destination. */
  lemma AcceptableOneMore(a: seq<MapDest>, d: MapDest, mappable: string -> bool)
    requires Acceptable(a, mappable)
    ensures Acceptable(a + [d], mappable) <==>
            && (forall j :: 0 <= j < |a| ==> a[j].subject != d.subject)
            && d.weight <= 100 && mappable(d.subject) && Sum(Of(a, d.cluster)) + d.weight <= 100
  {
    hide Of, Sum;
    var b := a + [d];
    forall c ensures Sum(Of(b, c)) == Sum(Of(a, c)) + (if d.cluster == c then d.weight else 0) {
      OfOneMore(a, d, c);
    }
    if Acceptable(b, mappable) {
      assert b[|a|] == d && Sum(Of(b, d.cluster)) <= 100;
      forall j | 0 <= j < |a| ensures a[j].subject != d.subject {
        assert b[j] == a[j];
      }
    }
  }

  /** What has been noted of the first destinations. */
  ghost predicate Noted(ds: seq<MapDest>, seen: set<string>, totals: map<string, nat>, groups: map<string, seq<Destination>>) {
    && (forall s :: s in seen <==> exists j :: 0 <= j < |ds| && ds[j].subject == s)
    && (forall c :: Sum(Of(ds, c)) == if c in totals then totals[c] else 0)
    && (forall c :: Of(ds, c) == if c in groups then groups[c] else [])
  }

  lemma NotedOneMore(a: seq<MapDest>, d: MapDest, seen: set<string>, totals: map<string, nat>, groups: map<string, seq<Destination>>)
    requires Noted(a, seen, totals, groups)
    ensures var c := d.cluster;
            Noted(a + [d], seen + {d.subject},
                  totals[c := (if c in totals then totals[c] else 0) + d.weight],
                  groups[c := (if c in groups then groups[c] else []) + [Destination(d.subject, d.weight)]])
  {
    hide Of, Sum;
    var b := a + [d];
    forall s ensures s in seen + {d.subject} <==> exists j :: 0 <= j < |b| && b[j].subject == s {
      if s == d.subject { assert b[|a|].subject == s; }
      if s in seen {
        var j :| 0 <= j < |a| && a[j].subject == s;
        assert b[j].subject == s;
      }
    }
    forall c ensures Of(b, c) == if d.cluster == c then Of(a, c) + [Destination(d.subject, d.weight)] else Of(a, c)
             ensures Sum(Of(b, c)) == Sum(Of(a, c)) + (if d.cluster == c then d.weight else 0) {
      OfOneMore(a, d, c);
    }
  }

  /** Check a weight list and sort it into clusters. The running totals are kept
      in 8 bits and never wrap around. */
  method Collect(ds: seq<MapDest>, mappable: string -> bool) returns (ok: bool, groups: map<string, seq<Destination>>)
    requires forall i :: 0 <= i < |ds| ==> ds[i].weight < 256
    ensures ok <==> Acceptable(ds, mappable)
    ensures ok ==> forall c :: Of(ds, c) == if c in groups then groups[c] else []
  {
    hide Acceptable, Noted, Of, Sum;
    var seen, totals: map<string, nat> := {}, map[];
    groups := map[];
    NothingNoted(mappable);
    assert ds[..0] == [];
    for i := 0 to |ds|
      invariant Acceptable(ds[..i], mappable) && Noted(ds[..i], seen, totals, groups)
    {
      var d := ds[i];
      assert ds[..i + 1] == ds[..i] + [d];
      AcceptableOneMore(ds[..i], d, mappable);
      NotedOneMore(ds[..i], d, seen, totals, groups);
      var sofar := if d.cluster in totals then totals[d.cluster] else 0;
      NotedSoFar(ds[..i], d, mappable, seen, totals, groups);
      var total := Add8(sofar, d.weight);
      if d.subject in seen || d.weight > 100 || total > 100 || !mappable(d.subject) {
        Refused(ds, mappable, i);
        return false, groups;
      }
      seen := seen + {d.subject};
      totals := totals[d.cluster := total];
      groups := groups[d.cluster := (if d.cluster in groups then groups[d.cluster] else []) + [Destination(d.subject, d.weight)]];
    }
    assert ds[..|ds|] == ds;
    ok := true;
    GroupsAreNoted(ds, seen, totals, groups);
  }

  lemma NothingNoted(mappable: string -> bool)
    ensures Acceptable([], mappable) && Noted([], {}, map[], map[])
  {
  }

  lemma NotedSoFar(a: seq<MapDest>, d: MapDest, mappable: string -> bool, seen: set<string>, totals: map<string, nat>, groups: map<string, seq<Destination>>)
    requires Acceptable(a, mappable) && Noted(a, seen, totals, groups)
    ensures (if d.cluster in totals then totals[d.cluster] else 0) == Sum(Of(a, d.cluster)) <= 100
    ensures d.subject !in seen <==> forall j :: 0 <= j < |a| ==> a[j].subject != d.subject
  {
  }

  lemma GroupsAreNoted(ds: seq<MapDest>, seen: set<string>, totals: map<string, nat>, groups: map<string, seq<Destination>>)
    requires Noted(ds, seen, totals, groups)
    ensures forall c :: Of(ds, c) == if c in groups then groups[c] else []
  {
  }

  /** A list whose start cannot be accepted cannot be accepted. */
  lemma Refused(ds: seq<MapDest>, mappable: string -> bool, i: nat)
    requires i < |ds| && !Acceptable(ds[..i + 1], mappable)
    ensures !Acceptable(ds, mappable)
  {
    var start := ds[..i + 1];
    if Acceptable(ds, mappable) {
      forall c ensures Sum(Of(start, c)) <= 100 {
        assert ds == start + ds[i + 1..];
        OfAppend(start, ds[i + 1..], c);
        SumAppend(Of(start, c), Of(ds[i + 1..], c));
      }
      assert Acceptable(start, mappable);
    }
  }

  // ---------- From weights to draws ----------

  /** Add the source for what is missing to 100, unless it was listed. */
  function Completed(ds: seq<Destination>, src: string, haveSrc: bool): seq<Destination>
    requires Sum(ds) <= 100
  {
    if Sum(ds) != 100 && !haveSrc then ds + [Destination(src, 100 - Sum(ds))] else ds
  }

  /** The prefix sums of the weights. */
  function PrefixSums(ds: seq<Destination>, before: nat): seq<nat> {
    if ds == [] then [] else [before + ds[0].weight] + PrefixSums(ds[1..], before + ds[0].weight)
  }

  /** Replace each weight by the sum up to it, in 8 bits. */
  method Accumulate(ds: seq<Destination>) returns (sums: seq<nat>)
    requires Sum(ds) <= 100
    ensures sums == PrefixSums(ds, 0)
  {
    sums := [];
    var lw: nat := 0;
    for i := 0 to |ds|
      invariant sums + PrefixSums(ds[i..], lw) == PrefixSums(ds, 0)
      invariant lw + Sum(ds[i..]) <= 100
    {
      assert ds[i..][1..] == ds[i + 1..];
      lw := Add8(ds[i].weight, lw);
      sums := sums + [lw];
    }
  }

  /** The destination that draw `w` selects: the first whose sum is above it. */
  method Select(sums: seq<nat>, w: nat) returns (i: nat)
    ensures i == Scan(sums, w)
  {
    // a single entry of weight 100 needs no draw
    if |sums| == 1 && sums[0] == 100 && w < 100 {
      return 0;
    }
    for j := 0 to |sums|
      invariant Scan(sums, w) == j + Scan(sums[j..], w)
    {
      assert sums[j..][1..] == sums[j + 1..];
      if w < sums[j] {
        return j;
      }
    }
    return |sums|;
  }

  /** The length of the list stands for no destination. */
  function Scan(sums: seq<nat>, w: nat): (i: nat)
    ensures i <= |sums|
  {
    if sums == [] || w < sums[0] then 0 else 1 + Scan(sums[1..], w)
  }

  /** The draws, of the 100 there are, that select position `i`. */
  function Draws(sums: seq<nat>, i: nat): set<nat> {
    set w | 0 <= w < 100 && Scan(sums, w) == i
  }

  lemma {:induction false} ScanIsBetween(ds: seq<Destination>, before: nat, w: nat, i: nat)
    requires before <= w && i < |ds|
    ensures Scan(PrefixSums(ds, before), w) == i <==> before + Sum(ds[..i]) <= w < before + Sum(ds[..i]) + ds[i].weight
    decreases |ds|
  {
    var first := before + ds[0].weight;
    assert PrefixSums(ds, before)[1..] == PrefixSums(ds[1..], first);
    if i == 0 {
      assert ds[..0] == [];
    } else {
      assert ds[..i][1..] == ds[1..][..i - 1];
      assert Sum(ds[..i]) == ds[0].weight + Sum(ds[1..][..i - 1]);
      if first <= w {
        ScanIsBetween(ds[1..], first, w, i - 1);
      }
    }
  }

  lemma {:induction false} ScanMisses(ds: seq<Destination>, before: nat, w: nat)
    requires before <= w
    ensures Scan(PrefixSums(ds, before), w) == |ds| <==> before + Sum(ds) <= w
    ensures |PrefixSums(ds, before)| == |ds|
    decreases |ds|
  {
    if ds != [] {
      var first := before + ds[0].weight;
      assert PrefixSums(ds, before)[1..] == PrefixSums(ds[1..], first);
      if first <= w {
        ScanMisses(ds[1..], first, w);
      } else {
        ScanMisses(ds[1..], first, first);
      }
    }
  }

  function Range(lo: nat, hi: nat): (s: set<nat>)
    requires lo <= hi
    ensures |s| == hi - lo && forall w :: w in s <==> lo <= w < hi
    decreases hi - lo
  {
    if lo == hi then {} else {lo} + Range(lo + 1, hi)
  }

  /** Each destination is selected by exactly as many of the 100 draws as its
      weight says, and the shortfall by none. */
  lemma DrawsMatchWeights(ds: seq<Destination>, i: nat)
    requires Sum(ds) <= 100 && i <= |ds|
    ensures |Draws(PrefixSums(ds, 0), i)| == if i < |ds| then ds[i].weight else 100 - Sum(ds)
  {
    var sums := PrefixSums(ds, 0);
    var lo := if i < |ds| then Sum(ds[..i]) else Sum(ds);
    var hi := if i < |ds| then lo + ds[i].weight else 100;
    SumUpTo(ds, i);
    forall w: nat | w < 100 ensures w in Draws(sums, i) <==> w in Range(lo, hi) {
      if i < |ds| { ScanIsBetween(ds, 0, w, i); } else { ScanMisses(ds, 0, w); }
    }
    assert Draws(sums, i) == Range(lo, hi);
  }

  lemma SumUpTo(ds: seq<Destination>, i: nat)
    requires i <= |ds|
    ensures i < |ds| ==> Sum(ds[..i]) + ds[i].weight <= Sum(ds)
  {
    if i < |ds| {
      var tail := [ds[i]] + ds[i + 1..];
      assert ds == ds[..i] + tail;
      SumAppend(ds[..i], tail);
      assert tail[1..] == ds[i + 1..];
    }
  }

  // ---------- The whole mapping ----------

  lemma RemoveOne(a: seq<Destination>, b: seq<Destination>, i: nat)
    requires a != [] && i < |b| && b[i] == a[0] && multiset(a) == multiset(b)
    ensures multiset(a[1..]) == multiset(b[..i] + b[i + 1..]) && b == b[..i] + ([b[i]] + b[i + 1..])
  {
    assert a == [a[0]] + a[1..];
    assert b == b[..i] + ([b[i]] + b[i + 1..]);
    assert multiset(a) == multiset{a[0]} + multiset(a[1..]);
    assert multiset(b) == multiset(b[..i]) + (multiset{b[i]} + multiset(b[i + 1..]));
    assert multiset(b[..i] + b[i + 1..]) == multiset(b[..i]) + multiset(b[i + 1..]);
    assert multiset(a[1..]) == multiset(a) - multiset{a[0]};
    assert multiset(b[..i] + b[i + 1..]) == multiset(b) - multiset{b[i]};
  }

  lemma {:induction false} SumOfPermutation(a: seq<Destination>, b: seq<Destination>)
    requires multiset(a) == multiset(b)
    ensures Sum(a) == Sum(b)
    decreases |a|
  {
    if a == [] {
      assert |multiset(b)| == 0;
    } else {
      assert a[0] in multiset(b);
      var i :| 0 <= i < |b| && b[i] == a[0];
      var rest := b[..i] + b[i + 1..];
      RemoveOne(a, b, i);
      SumOfPermutation(a[1..], rest);
      SumAppend(b[..i], [b[i]] + b[i + 1..]);
      SumAppend(b[..i], b[i + 1..]);
      assert ([b[i]] + b[i + 1..])[1..] == b[i + 1..];
    }
  }

  predicate DistinctSubjects(ds: seq<Destination>) {
    forall i, j :: 0 <= i < j < |ds| ==> ds[i].subject != ds[j].subject
  }

  lemma {:induction false} OnceInDistinct(ds: seq<Destination>, x: Destination)
    requires DistinctSubjects(ds)
    ensures multiset(ds)[x] <= 1
    decreases |ds|
  {
    if ds != [] {
      assert ds == [ds[0]] + ds[1..];
      assert DistinctSubjects(ds[1..]);
      OnceInDistinct(ds[1..], x);
      if x == ds[0] {
        assert x !in ds[1..];
      }
    }
  }

  lemma TwiceInSequence(ds: seq<Destination>, i: nat, j: nat)
    requires i < j < |ds| && ds[i] == ds[j]
    ensures multiset(ds)[ds[i]] >= 2
  {
    assert ds == ds[..j] + [ds[j]] + ds[j + 1..];
    assert ds[..j][i] == ds[i] && ds[i] in multiset(ds[..j]);
  }

  lemma PermutationIsDistinct(a: seq<Destination>, b: seq<Destination>)
    requires multiset(a) == multiset(b) && DistinctSubjects(b)
    ensures DistinctSubjects(a)
  {
    forall i, j | 0 <= i < j < |a| ensures a[i].subject != a[j].subject {
      assert a[i] in multiset(b) && a[j] in multiset(b);
      var k :| 0 <= k < |b| && b[k] == a[i];
      var m :| 0 <= m < |b| && b[m] == a[j];
      if k == m {
        OnceInDistinct(b, a[i]);
        TwiceInSequence(a, i, j);
      }
    }
  }

  /** The draws that send a message to `subject`. */
  function DrawsFor(ds: seq<Destination>, subject: string): set<nat> {
    var sums := PrefixSums(ds, 0);
    set w | 0 <= w < 100 && Scan(sums, w) < |ds| && ds[Scan(sums, w)].subject == subject
  }

  lemma GroupIsFair(g: seq<Destination>, src: string, haveSrc: bool, sorted: seq<Destination>, d: Destination)
    requires Sum(g) <= 100 && DistinctSubjects(g)
    requires !haveSrc ==> forall i :: 0 <= i < |g| ==> g[i].subject != src
    requires multiset(sorted) == multiset(Completed(g, src, haveSrc))
    ensures Sum(sorted) == if haveSrc then Sum(g) else 100
    ensures |Draws(PrefixSums(sorted, 0), |sorted|)| == if haveSrc then 100 - Sum(g) else 0
    ensures d in Completed(g, src, haveSrc) ==> |DrawsFor(sorted, d.subject)| == d.weight
  {
    var all := Completed(g, src, haveSrc);
    SumAppend(g, [Destination(src, 100 - Sum(g))]);
    assert [Destination(src, 100 - Sum(g))][1..] == [];
    SumOfPermutation(sorted, all);
    PermutationIsDistinct(sorted, all);
    DrawsMatchWeights(sorted, |sorted|);
    if d in all {
      assert d in multiset(sorted);
      var i :| 0 <= i < |sorted| && sorted[i] == d;
      DrawsMatchWeights(sorted, i);
      assert DrawsFor(sorted, d.subject) == Draws(PrefixSums(sorted, 0), i);
    }
  }

  predicate Lists(ds: seq<MapDest>, subject: string) {
    exists i :: 0 <= i < |ds| && ds[i].subject == subject
  }

  /** The destinations of a cluster are distinct entries of the list. */
  lemma {:induction false} OfIsDistinct(ds: seq<MapDest>, cluster: string)
    requires forall i, j :: 0 <= i < j < |ds| ==> ds[i].subject != ds[j].subject
    ensures DistinctSubjects(Of(ds, cluster))
    ensures forall i :: 0 <= i < |Of(ds, cluster)| ==> Lists(ds, Of(ds, cluster)[i].subject)
    decreases |ds|
  {
    if ds != [] {
      var rest := ds[1..];
      OfIsDistinct(rest, cluster);
      assert forall j :: 0 <= j < |rest| ==> rest[j] == ds[j + 1];
      assert ds[0].subject == ds[0].subject && Lists(ds, ds[0].subject);
      forall i | 0 <= i < |Of(rest, cluster)|
        ensures Lists(ds, Of(rest, cluster)[i].subject) && Of(rest, cluster)[i].subject != ds[0].subject
      {
        var j :| 0 <= j < |rest| && rest[j].subject == Of(rest, cluster)[i].subject;
        assert ds[j + 1].subject == Of(rest, cluster)[i].subject;
      }
    }
  }

  // ---------- What a mapping promises ----------

  /** A cluster's destinations and the sums up to them. */
  datatype Table = Table(dests: seq<Destination>, sums: seq<nat>)

  /** Entry `i` of the list is for this cluster and subject. */
  predicate IsFor(d: MapDest, cluster: string, subject: string) { d.cluster == cluster && d.subject == subject }

  predicate ListsFor(ds: seq<MapDest>, cluster: string, subject: string) {
    exists i :: 0 <= i < |ds| && IsFor(ds[i], cluster, subject)
  }

  /** Where draw `w` sends a message: the first destination whose sum is above it. */
  ghost predicate Sends(t: Table, w: nat, subject: string) {
    exists i :: 0 <= i < |t.sums| == |t.dests| && t.dests[i].subject == subject && w < t.sums[i]
      && forall j :: 0 <= j < i ==> t.sums[j] <= w
  }

  /** The draws, of the 100 there are, that send a message to a subject. */
  ghost function SentTo(t: Table, subject: string): set<nat> { set w | 0 <= w < 100 && Sends(t, w, subject) }

  /** The draws that send it nowhere. */
  ghost function Lost(t: Table): set<nat> { set w | 0 <= w < 100 && Misses(t, w) }

  ghost predicate Misses(t: Table, w: nat) { forall i :: 0 <= i < |t.sums| ==> t.sums[i] <= w }

  /** Every destination of the cluster is sent to by as many draws as its weight. What is
      missing to 100 goes to the source, unless the list names it, and then nowhere.
      Nothing else is sent to. */
  ghost predicate Fair(t: Table, ds: seq<MapDest>, src: string, cluster: string) {
    && (forall i :: 0 <= i < |ds| && ds[i].cluster == cluster ==> |SentTo(t, ds[i].subject)| == ds[i].weight)
    && (!Lists(ds, src) ==> |SentTo(t, src)| == 100 - Sum(Of(ds, cluster)) && Lost(t) == {})
    && (Lists(ds, src) ==> |Lost(t)| == 100 - Sum(Of(ds, cluster)))
    && (forall x :: !ListsFor(ds, cluster, x) && (x == src ==> Lists(ds, src)) ==> SentTo(t, x) == {})
  }

  lemma {:induction false} ScanIsFirst(sums: seq<nat>, w: nat)
    ensures forall j :: 0 <= j < Scan(sums, w) ==> sums[j] <= w
    ensures Scan(sums, w) < |sums| ==> w < sums[Scan(sums, w)]
    decreases |sums|
  {
    if sums != [] && sums[0] <= w {
      ScanIsFirst(sums[1..], w);
      assert forall j :: 0 < j < |sums| ==> sums[j] == sums[1..][j - 1];
    }
  }

  lemma SendsIsScan(ds: seq<Destination>, w: nat, subject: string)
    ensures var t := Table(ds, PrefixSums(ds, 0));
            && |t.sums| == |ds|
            && (Sends(t, w, subject) <==> Scan(t.sums, w) < |ds| && ds[Scan(t.sums, w)].subject == subject)
            && (Misses(t, w) <==> Scan(t.sums, w) == |ds|)
  {
    var sums := PrefixSums(ds, 0);
    ScanMisses(ds, 0, w);
    ScanIsFirst(sums, w);
    hide PrefixSums;
    var t := Table(ds, sums);
    if Sends(t, w, subject) {
      var i :| 0 <= i < |t.sums| == |t.dests| && t.dests[i].subject == subject && w < t.sums[i]
        && forall j :: 0 <= j < i ==> t.sums[j] <= w;
      assert i == Scan(sums, w);
    }
  }

  lemma SentToIsDraws(ds: seq<Destination>, subject: string)
    ensures SentTo(Table(ds, PrefixSums(ds, 0)), subject) == DrawsFor(ds, subject)
    ensures Lost(Table(ds, PrefixSums(ds, 0))) == Draws(PrefixSums(ds, 0), |ds|)
  {
    hide PrefixSums, Sends, Misses, Scan;
    var t := Table(ds, PrefixSums(ds, 0));
    forall w: nat | w < 100
      ensures w in SentTo(t, subject) <==> w in DrawsFor(ds, subject)
      ensures w in Lost(t) <==> w in Draws(t.sums, |ds|)
    {
      SendsIsScan(ds, w, subject);
    }
  }

  /** The destinations of a cluster are the entries of the list for it. */
  lemma {:induction false} OfHolds(ds: seq<MapDest>, cluster: string, d: Destination)
    ensures d in Of(ds, cluster) <==> MapDest(d.subject, d.weight, cluster) in ds
    decreases |ds|
  {
    if ds != [] {
      OfHolds(ds[1..], cluster, d);
      assert ds == [ds[0]] + ds[1..];
    }
  }

  lemma NoDrawsElsewhere(sorted: seq<Destination>, subject: string)
    requires forall i :: 0 <= i < |sorted| ==> sorted[i].subject != subject
    ensures DrawsFor(sorted, subject) == {}
  {
    hide PrefixSums, Scan;
  }

  /** For every accepted list and every cluster, however equal weights end up ordered. */
  lemma MappingIsFair(ds: seq<MapDest>, mappable: string -> bool, src: string, cluster: string, sorted: seq<Destination>)
    requires Acceptable(ds, mappable)
    requires multiset(sorted) == multiset(Completed(Of(ds, cluster), src, Lists(ds, src)))
    ensures Fair(Table(sorted, PrefixSums(sorted, 0)), ds, src, cluster)
  {
    hide PrefixSums, Of, Sum, DrawsFor, Draws, SentTo, Lost, Acceptable;
    var g, have := Of(ds, cluster), Lists(ds, src);
    var t := Table(sorted, PrefixSums(sorted, 0));
    SumFits(ds, mappable, cluster);
    GroupOfAccepted(ds, mappable, src, cluster);
    SentToIsDraws(sorted, src);
    forall i | 0 <= i < |ds| && ds[i].cluster == cluster ensures |SentTo(t, ds[i].subject)| == ds[i].weight {
      var d := Destination(ds[i].subject, ds[i].weight);
      assert ds[i] == MapDest(d.subject, d.weight, cluster) && ds[i] in ds;
      OfHolds(ds, cluster, d);
      GroupIsFair(g, src, have, sorted, d);
      SentToIsDraws(sorted, d.subject);
    }
    var rest := Destination(src, 100 - Sum(g));
    GroupIsFair(g, src, have, sorted, rest);
    forall x | !ListsFor(ds, cluster, x) && (x == src ==> have) ensures SentTo(t, x) == {} {
      NotSentTo(ds, src, cluster, sorted, x);
      SentToIsDraws(sorted, x);
    }
    if !have {
      if Sum(g) == 100 { SourceNotSentTo(ds, src, cluster, sorted); }
    }
    EmptySet(Lost(t));
  }

  lemma EmptySet(s: set<nat>)
    ensures |s| == 0 <==> s == {}
  {
  }

  lemma SumFits(ds: seq<MapDest>, mappable: string -> bool, cluster: string)
    requires Acceptable(ds, mappable)
    ensures Sum(Of(ds, cluster)) <= 100
  {
  }

  lemma GroupOfAccepted(ds: seq<MapDest>, mappable: string -> bool, src: string, cluster: string)
    requires Acceptable(ds, mappable)
    ensures DistinctSubjects(Of(ds, cluster))
    ensures !Lists(ds, src) ==> forall i :: 0 <= i < |Of(ds, cluster)| ==> Of(ds, cluster)[i].subject != src
  {
    OfIsDistinct(ds, cluster);
  }

  /** A permutation of the completed group has no other subjects. */
  lemma NotSentTo(ds: seq<MapDest>, src: string, cluster: string, sorted: seq<Destination>, x: string)
    requires Sum(Of(ds, cluster)) <= 100 && multiset(sorted) == multiset(Completed(Of(ds, cluster), src, Lists(ds, src)))
    requires !ListsFor(ds, cluster, x) && (x == src ==> Lists(ds, src))
    ensures DrawsFor(sorted, x) == {}
  {
    hide Of, Sum, DrawsFor;
    forall i | 0 <= i < |sorted| ensures sorted[i].subject != x {
      assert sorted[i] in multiset(sorted);
      var d := sorted[i];
      OfHolds(ds, cluster, d);
      if d in Of(ds, cluster) {
        var j :| 0 <= j < |ds| && ds[j] == MapDest(d.subject, d.weight, cluster);
        assert IsFor(ds[j], cluster, d.subject);
      }
    }
    NoDrawsElsewhere(sorted, x);
  }

  /** A full group leaves nothing for the source. */
  lemma SourceNotSentTo(ds: seq<MapDest>, src: string, cluster: string, sorted: seq<Destination>)
    requires Sum(Of(ds, cluster)) == 100 && !Lists(ds, src) && multiset(sorted) == multiset(Completed(Of(ds, cluster), src, false))
    ensures SentTo(Table(sorted, PrefixSums(sorted, 0)), src) == {}
  {
    hide Of, Sum, DrawsFor, SentTo, Lost, PrefixSums, Draws;
    forall i | 0 <= i < |sorted| ensures sorted[i].subject != src {
      assert sorted[i] in multiset(sorted);
      var d := sorted[i];
      OfHolds(ds, cluster, d);
      var j :| 0 <= j < |ds| && ds[j] == MapDest(d.subject, d.weight, cluster);
    }
    NoDrawsElsewhere(sorted, src);
    SentToIsDraws(sorted, src);
  }

  // ---------- The code ----------

  predicate Ascending(ds: seq<Destination>) { forall i, j :: 0 <= i < j < |ds| ==> ds[i].weight <= ds[j].weight }

  lemma NothingAscends()
    ensures Ascending([])
  {
  }

  lemma InsertKeeps(sorted: seq<Destination>, j: nat, d: Destination)
    requires Ascending(sorted) && j <= |sorted| && (forall m :: 0 <= m < j ==> sorted[m].weight <= d.weight)
    requires j < |sorted| ==> d.weight < sorted[j].weight
    ensures Ascending(sorted[..j] + [d] + sorted[j..])
    ensures multiset(sorted[..j] + [d] + sorted[j..]) == multiset(sorted) + multiset{d}
  {
    assert sorted == sorted[..j] + sorted[j..];
  }

  /** Where a weight goes in a sorted list: after all that are not above it. */
  method PlaceFor(sorted: seq<Destination>, weight: nat) returns (j: nat)
    ensures j <= |sorted| && (j < |sorted| ==> weight < sorted[j].weight)
    ensures forall m :: 0 <= m < j ==> sorted[m].weight <= weight
  {
    j := 0;
    while j < |sorted| && sorted[j].weight <= weight
      invariant j <= |sorted| && forall m :: 0 <= m < j ==> sorted[m].weight <= weight
    {
      j := j + 1;
    }
  }

  /** Sort by weight. */
  method SortByWeight(ds: seq<Destination>) returns (sorted: seq<Destination>)
    ensures Ascending(sorted) && multiset(sorted) == multiset(ds)
  {
    hide Ascending;
    NothingAscends();
    sorted := [];
    for i := 0 to |ds|
      invariant Ascending(sorted) && multiset(sorted) == multiset(ds[..i])
    {
      var j := PlaceFor(sorted, ds[i].weight);
      assert ds[..i + 1] == ds[..i] + [ds[i]];
      InsertKeeps(sorted, j, ds[i]);
      sorted := sorted[..j] + [ds[i]] + sorted[j..];
    }
    assert ds[..|ds|] == ds;
  }

  /** The weights' sum, in 8 bits. */
  method TotalWeight(group: seq<Destination>) returns (ltw: nat)
    requires Sum(group) <= 100
    ensures ltw == Sum(group)
  {
    ltw := 0;
    for i := 0 to |group|
      invariant ltw + Sum(group[i..]) == Sum(group)
    {
      assert group[i..][1..] == group[i + 1..];
      ltw := Add8(ltw, group[i].weight);
    }
  }

  /** `processDestinations`: complete to 100, sort, accumulate. */
  method ProcessDestinations(ghost ds: seq<MapDest>, ghost mappable: string -> bool, cluster: string,
                             group: seq<Destination>, src: string, haveSrc: bool) returns (t: Table)
    requires Acceptable(ds, mappable) && group == Of(ds, cluster) && haveSrc == Lists(ds, src)
    ensures Fair(t, ds, src, cluster)
  {
    hide Acceptable, Of, Lists, Fair, PrefixSums;
    SumFits(ds, mappable, cluster);
    var ltw := TotalWeight(group);
    var dests := group;
    if ltw != 100 && !haveSrc {
      dests := dests + [Destination(src, if group == [] then 100 else 100 - ltw)];
    }
    assert dests == Completed(group, src, haveSrc);
    CompletedFits(group, src, haveSrc);
    var sorted := SortByWeight(dests);
    SumOfPermutation(sorted, dests);
    var sums := Accumulate(sorted);
    t := Table(sorted, sums);
    MappingIsFair(ds, mappable, src, cluster, sorted);
  }

  lemma CompletedFits(g: seq<Destination>, src: string, haveSrc: bool)
    requires Sum(g) <= 100
    ensures Sum(Completed(g, src, haveSrc)) <= 100
  {
    SumAppend(g, [Destination(src, 100 - Sum(g))]);
    assert [Destination(src, 100 - Sum(g))][1..] == [];
  }

  predicate HasCluster(ds: seq<MapDest>, cluster: string) { exists i :: 0 <= i < |ds| && ds[i].cluster == cluster }

  /** `AddWeightedMappings`: a list is accepted exactly when it may be, and then there is
      a fair table for messages of no cluster and for every cluster that is named. */
  method AddWeightedMappings(src: string, ds: seq<MapDest>, mappable: string -> bool) returns (ok: bool, tables: map<string, Table>)
    requires forall i :: 0 <= i < |ds| ==> ds[i].weight < 256
    ensures ok <==> Acceptable(ds, mappable)
    ensures ok ==> forall c :: c in tables <==> c == "" || HasCluster(ds, c)
    ensures ok ==> forall c :: c in tables ==> Fair(tables[c], ds, src, c)
  {
    hide Acceptable, Fair, Of;
    var groups;
    ok, groups := Collect(ds, mappable);
    tables := map[];
    if !ok {
      return;
    }
    var haveSrc := Lists(ds, src);
    var todo := {""} + set i | 0 <= i < |ds| :: ds[i].cluster;
    ghost var all := todo;
    while todo != {}
      invariant todo <= all && tables.Keys == all - todo
      invariant forall c :: c in tables ==> Fair(tables[c], ds, src, c)
      decreases |todo|
    {
      var c :| c in todo;
      var t := ProcessDestinations(ds, mappable, c, if c in groups then groups[c] else [], src, haveSrc);
      tables := tables[c := t];
      todo := todo - {c};
    }
  }

  /** The table for a server of cluster `name`, and where draw `w` sends a message: its
      own table when the mapping names its cluster, the general one otherwise. */
  method SelectMapping(ghost ds: seq<MapDest>, tables: map<string, Table>, name: string, w: nat) returns (to: string, found: bool)
    requires forall c :: c in tables <==> c == "" || HasCluster(ds, c)
    requires forall c :: c in tables ==> |tables[c].dests| == |tables[c].sums|
    ensures var t := tables[if HasCluster(ds, name) then name else ""];
            && (found ==> Sends(t, w, to))
            && (!found ==> Misses(t, w))
  {
    var t := if name in tables then tables[name] else tables[""];
    var i := Select(t.sums, w);
    ScanIsFirst(t.sums, w);
    if i < |t.sums| {
      assert w < t.sums[i] && forall j :: 0 <= j < i ==> t.sums[j] <= w;
      return t.dests[i].subject, true;
    }
    return "", false;
  }
}
