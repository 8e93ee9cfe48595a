/** Replicas of the JWT store send each other packs of their files and merge
    what they receive. A store is its directory here: nothing expires and no
    limit is hit while replicas sync. */
module JwtSync {
  import opened ExpirationTracking
  import opened JwtStore
  import opened Optional
  import opened Splitting

  type Files = map<string, string>

  // ---------- Packs ----------

  /** A pack line is the key and the JWT. */
  function Line(k: string, jwt: string): string { k + ("|" + jwt) }

  /** JWTs that say they have expired. */
  predicate Stale(cfg: Config, jwt: string, now: int) {
    match cfg.decode(jwt)
    case None => false
    case Some(c) => 0 < c.expires < now
  }

  /** What `Pack` selects from: the files, and the keys that are tracked when there
      is a tracker. */
  datatype Packing = Packing(files: Files, tracked: Option<set<string>>, now: int)

  /** With a tracker, files that it does not know or that have expired are left out. */
  predicate Packs(cfg: Config, p: Packing, k: string)
    requires k in p.files
  {
    p.tracked.None? || (k in p.tracked.value && !Stale(cfg, p.files[k], p.now))
  }

  /** The keys that a walk packs, up to `max` of them; a negative `max` is no limit. */
  function Chosen(cfg: Config, p: Packing, order: seq<string>, max: int): seq<string>
    requires forall k :: k in order ==> k in p.files
  {
    if order == [] || max == 0 then []
    else if Packs(cfg, p, order[0]) then [order[0]] + Chosen(cfg, p, order[1..], max - 1)
    else Chosen(cfg, p, order[1..], max)
  }

  function Lines(files: Files, keys: seq<string>): seq<string>
    requires forall k :: k in keys ==> k in files
  {
    if keys == [] then [] else [Line(keys[0], files[keys[0]])] + Lines(files, keys[1..])
  }

  lemma {:induction false} ChosenKeys(cfg: Config, p: Packing, order: seq<string>, max: int)
    requires Distinct(order) && forall k :: k in order ==> k in p.files
    ensures Distinct(Chosen(cfg, p, order, max))
    ensures forall k :: k in Chosen(cfg, p, order, max) ==> k in order && Packs(cfg, p, k)
    ensures 0 <= max ==> |Chosen(cfg, p, order, max)| <= max
    decreases |order|
  {
    hide Packs;
    if order != [] && max != 0 {
      assert order[0] !in order[1..];
      ChosenKeys(cfg, p, order[1..], max);
      ChosenKeys(cfg, p, order[1..], max - 1);
    }
  }

  /** A file that a pack may hold: with a tracker it is tracked, and it does not say that
      it expired before now. */
  predicate Eligible(cfg: Config, p: Packing, k: string) {
    && k in p.files
    && (p.tracked.Some? ==> k in p.tracked.value)
    && (p.tracked.Some? && cfg.decode(p.files[k]).Some? ==>
          !(0 < cfg.decode(p.files[k]).value.expires && cfg.decode(p.files[k]).value.expires < p.now))
  }

  /** `keys` come in the order of the walk. */
  ghost predicate InWalkOrder(keys: seq<string>, order: seq<string>) {
    forall i, j :: 0 <= i < j < |keys| ==> ComesBefore(order, keys[i], keys[j])
  }

  ghost predicate ComesBefore(order: seq<string>, x: string, y: string) {
    exists a, b :: 0 <= a < b < |order| && order[a] == x && order[b] == y
  }

  /** A pack holds exactly the eligible files of a part of the walk, in its order. The
      part is the whole walk unless the pack is full. */
  lemma {:induction false} ChosenIsExact(cfg: Config, p: Packing, order: seq<string>, max: int) returns (n: nat)
    requires Distinct(order) && forall k :: k in order ==> k in p.files
    ensures n <= |order| && (n == |order| || |Chosen(cfg, p, order, max)| == max)
    ensures forall k :: k in Chosen(cfg, p, order, max) <==> k in order[..n] && Eligible(cfg, p, k)
    ensures InWalkOrder(Chosen(cfg, p, order, max), order)
    decreases |order|
  {
    if order == [] || max == 0 {
      n := 0;
    } else {
      var packs := Packs(cfg, p, order[0]);
      assert packs <==> Eligible(cfg, p, order[0]);
      hide Packs, Eligible;
      var rest := Chosen(cfg, p, order[1..], if packs then max - 1 else max);
      var m := ChosenIsExact(cfg, p, order[1..], if packs then max - 1 else max);
      n := m + 1;
      assert forall k :: k in order[..n] <==> k == order[0] || k in order[1..][..m] by {
        assert order[..n] == [order[0]] + order[1..][..m];
      }
      WalkOrderGrows(rest, order, packs);
    }
  }

  lemma WalkOrderGrows(rest: seq<string>, order: seq<string>, first: bool)
    requires order != [] && InWalkOrder(rest, order[1..]) && forall k :: k in rest ==> k in order[1..]
    ensures InWalkOrder(if first then [order[0]] + rest else rest, order)
  {
    var keys := if first then [order[0]] + rest else rest;
    var skip := if first then 1 else 0;
    forall i, j | 0 <= i < j < |keys| ensures ComesBefore(order, keys[i], keys[j]) {
      if i < skip {
        assert keys[j] == rest[j - 1] && rest[j - 1] in order[1..];
        var b :| 0 <= b < |order[1..]| && order[1..][b] == keys[j];
        assert order[0] == keys[i] && order[b + 1] == keys[j];
      } else {
        assert keys[i] == rest[i - skip] && keys[j] == rest[j - skip] && ComesBefore(order[1..], rest[i - skip], rest[j - skip]);
        var a, b :| 0 <= a < b < |order[1..]| && order[1..][a] == rest[i - skip] && order[1..][b] == rest[j - skip];
        assert order[a + 1] == keys[i] && order[b + 1] == keys[j];
      }
    }
  }

  /** When the pack has room for them, it holds all eligible files of the walk. */
  lemma AllEligibleAreChosen(cfg: Config, p: Packing, order: seq<string>, max: int)
    requires Distinct(order) && forall k :: k in order ==> k in p.files
    requires max < 0 || |AllEligible(cfg, p, order)| <= max
    ensures forall k :: k in Chosen(cfg, p, order, max) <==> k in order && Eligible(cfg, p, k)
  {
    hide Packs, Eligible, Chosen;
    var keys := Chosen(cfg, p, order, max);
    var all := AllEligible(cfg, p, order);
    ChosenKeys(cfg, p, order, max);
    var n := ChosenIsExact(cfg, p, order, max);
    if n < |order| {
      var chosen := set k | k in keys;
      assert chosen <= all;
      DistinctSize(keys);
      if chosen != all { FewerThan(chosen, all); }
      forall k ensures k in keys <==> k in order && Eligible(cfg, p, k) { assert k in keys <==> k in all; }
    } else {
      assert order[..n] == order;
    }
  }

  lemma FewerThan(a: set<string>, b: set<string>)
    requires a < b
    ensures |a| < |b|
  {
    assert b == a + (b - a) && b - a != {};
  }

  lemma {:induction false} DistinctSize(s: seq<string>)
    requires Distinct(s)
    ensures |set k | k in s| == |s|
    decreases |s|
  {
    if s == [] {
      assert (set k | k in s) == {};
    } else {
      DistinctSize(s[1..]);
      assert s[0] !in s[1..];
      assert (set k | k in s) == {s[0]} + (set k | k in s[1..]);
    }
  }

  lemma {:induction false} LinesMore(files: Files, keys: seq<string>, k: string)
    requires k in files && forall x :: x in keys ==> x in files
    ensures Lines(files, keys + [k]) == Lines(files, keys) + [Line(k, files[k])]
    decreases |keys|
  {
    if keys == [] {
      assert keys + [k] == [k];
    } else {
      assert (keys + [k])[1..] == keys[1..] + [k];
      LinesMore(files, keys[1..], k);
    }
  }

  /** `Pack`. */
  method Pack(cfg: Config, p: Packing, order: seq<string>, max: int) returns (pack: string)
    requires forall k :: k in order ==> k in p.files
    ensures (forall k :: k in Chosen(cfg, p, order, max) ==> k in p.files)
            && pack == Join(Lines(p.files, Chosen(cfg, p, order, max)), '\n')
  {
    hide Packs, Line;
    var lines, count := [], 0;
    ghost var keys := [];
    ghost var all := Chosen(cfg, p, order, max);
    for i := 0 to |order|
      invariant forall k :: k in keys ==> k in p.files
      invariant lines == Lines(p.files, keys) && (max < 0 || count <= max)
      invariant keys + Chosen(cfg, p, order[i..], max - count) == all
    {
      assert order[i..][1..] == order[i + 1..];
      var k := order[i];
      if count != max && Packs(cfg, p, k) {
        LinesMore(p.files, keys, k);
        lines := lines + [Line(k, p.files[k])];
        keys := keys + [k];
        count := count + 1;
      }
    }
    pack := Join(lines, '\n');
    assert keys == all;
  }

  // ---------- Merging ----------

  datatype Merged = Merged(files: Files, ok: bool)

  datatype Decision = Accept | Keep | Reject

  function Verdict(cfg: Config, k: string, existing: string, jwt: string): Decision {
    match (cfg.decode(jwt), cfg.decode(existing))
    case (None, _) => Reject
    case (_, None) => Accept
    case (Some(n), Some(e)) =>
      if e.id == n.id || e.issuedAt > n.issuedAt then Keep
      else if n.subject != k || e.subject != n.subject then Reject
      else Accept
  }

  /** The comparison in `saveIfNewer`: what becomes of a JWT that is offered. */
  function Judge(cfg: Config, files: Files, k: string, jwt: string): Decision {
    if !cfg.validKey(k) then Reject
    else
      var verdict := if k in files then Verdict(cfg, k, files[k], jwt) else Accept;
      if verdict.Accept? && jwt == "" then Reject else verdict
  }

  /** `saveIfNewer` between whose comparison and write nothing else happens. */
  function SaveIfNewer(cfg: Config, files: Files, k: string, jwt: string): Merged {
    match Judge(cfg, files, k, jwt)
    case Keep => Merged(files, true)
    case Reject => Merged(files, false)
    case Accept => Merged(files[k := jwt], true)
  }

  function MergeLine(cfg: Config, files: Files, line: string): Merged {
    if line == "" then Merged(files, true)
    else
      var parts := Split(line, Is('|'));
      if |parts| != 2 then Merged(files, false) else SaveIfNewer(cfg, files, parts[0], parts[1])
  }

  /** Merge lines until one fails. */
  function MergeLines(cfg: Config, files: Files, lines: seq<string>): Merged
    decreases |lines|
  {
    if lines == [] then Merged(files, true)
    else
      var m := MergeLine(cfg, files, lines[0]);
      if m.ok then MergeLines(cfg, m.files, lines[1..]) else m
  }

  method Merge(cfg: Config, files: Files, pack: string) returns (m: Merged)
    ensures m == MergeLines(cfg, files, Split(pack, Is('\n')))
  {
    var lines := Split(pack, Is('\n'));
    m := Merged(files, true);
    for i := 0 to |lines|
      invariant m.ok && MergeLines(cfg, m.files, lines[i..]) == MergeLines(cfg, files, lines)
    {
      assert lines[i..][1..] == lines[i + 1..];
      m := MergeLine(cfg, m.files, lines[i]);
      if !m.ok {
        return;
      }
    }
  }

  /** A JWT that is offered for a valid key is stored if there is none yet. It replaces
      one that cannot be decoded if it can be itself. It replaces another exactly when it
      has another identity, is not older, and both are for this key. */
  lemma ReplacesExactly(cfg: Config, files: Files, k: string, jwt: string)
    ensures var new' := cfg.decode(jwt);
            Judge(cfg, files, k, jwt).Accept? <==>
              && cfg.validKey(k) && jwt != ""
              && (k in files ==> new'.Some?)
              && (k in files && new'.Some? && cfg.decode(files[k]).Some? ==>
                    var old' := cfg.decode(files[k]).value;
                    && old'.id != new'.value.id && old'.issuedAt <= new'.value.issuedAt
                    && new'.value.subject == k && old'.subject == k)
  {
  }

  /** It is kept out without an error exactly when what is there has the same identity or
      is newer. */
  lemma KeepsExactly(cfg: Config, files: Files, k: string, jwt: string)
    ensures Judge(cfg, files, k, jwt).Keep? <==>
              && cfg.validKey(k) && k in files && cfg.decode(jwt).Some? && cfg.decode(files[k]).Some?
              && (cfg.decode(files[k]).value.id == cfg.decode(jwt).value.id
                  || cfg.decode(files[k]).value.issuedAt > cfg.decode(jwt).value.issuedAt)
  {
  }

  /** A line is blank, or is a key and a JWT with one separator between them; any other
      line is an error and changes nothing. */
  lemma LineIsRead(cfg: Config, files: Files, a: string, b: string, c: string)
    requires Free(a, Is('|')) && Free(b, Is('|'))
    ensures MergeLine(cfg, files, "") == Merged(files, true)
    ensures MergeLine(cfg, files, a + ("|" + b)) == SaveIfNewer(cfg, files, a, b)
    ensures a != "" ==> MergeLine(cfg, files, a) == Merged(files, false)
    ensures MergeLine(cfg, files, a + ("|" + (b + ("|" + c)))) == Merged(files, false)
  {
    SplitOne(a, Is('|'));
    SplitMore(a, '|', b, Is('|'));
    SplitOne(b, Is('|'));
    SplitMore(a, '|', b + ("|" + c), Is('|'));
    SplitMore(b, '|', c, Is('|'));
  }

  /** Lines are merged in order, and those after the first that fails are not. */
  lemma {:induction false} MergeStopsAtFailure(cfg: Config, files: Files, before: seq<string>, line: string, after: seq<string>)
    ensures var m := MergeLines(cfg, files, before);
            MergeLines(cfg, files, before + ([line] + after)) ==
              if !m.ok then m
              else if !MergeLine(cfg, m.files, line).ok then MergeLine(cfg, m.files, line)
              else MergeLines(cfg, MergeLine(cfg, m.files, line).files, after)
    decreases |before|
  {
    hide MergeLine;
    var lines := before + ([line] + after);
    if before == [] {
      assert lines[0] == line && lines[1..] == after;
    } else {
      assert lines[0] == before[0] && lines[1..] == before[1..] + ([line] + after);
      var m := MergeLine(cfg, files, before[0]);
      if m.ok { MergeStopsAtFailure(cfg, m.files, before[1..], line, after); }
    }
  }

  // ---------- Merge undoes Pack ----------

  /** Keys and JWTs are base-32 and base-64 texts: they hold no separator. */
  predicate Clean(s: string) { s != "" && '|' !in s && '\n' !in s }

  /** A file that can travel: a valid key with a JWT for that key. */
  predicate Travels(cfg: Config, k: string, jwt: string) {
    && cfg.validKey(k) && Clean(k) && Clean(jwt)
    && cfg.decode(jwt).Some? && cfg.decode(jwt).value.subject == k
  }

  lemma MergeOneLine(cfg: Config, files: Files, k: string, jwt: string)
    requires Travels(cfg, k, jwt)
    ensures MergeLine(cfg, files, Line(k, jwt)) == SaveIfNewer(cfg, files, k, jwt)
  {
    SplitMore(k, '|', jwt, Is('|'));
    SplitOne(jwt, Is('|'));
  }

  /** What a store holds for `k` after it was offered `jwt`. */
  function Offered(cfg: Config, files: Files, k: string, jwt: string): string {
    if k in files && !Verdict(cfg, k, files[k], jwt).Accept? then files[k] else jwt
  }

  /** All files of a store can travel. */
  ghost predicate Healthy(cfg: Config, files: Files) {
    forall k :: k in files ==> Travels(cfg, k, files[k])
  }

  /** `order` is a walk over the directory: every key once. */
  ghost predicate WalkOf(files: Files, order: seq<string>) {
    Distinct(order) && forall k :: k in order <==> k in files
  }

  lemma SaveOffers(cfg: Config, files: Files, k: string, jwt: string)
    requires Healthy(cfg, files) && Travels(cfg, k, jwt)
    ensures SaveIfNewer(cfg, files, k, jwt) == Merged(files[k := Offered(cfg, files, k, jwt)], true)
  {
    if k in files && !Verdict(cfg, k, files[k], jwt).Accept? {
      assert files[k := files[k]] == files;
    }
  }

  /** Offer the files of `a`, one key after the other. */
  function OfferAll(cfg: Config, files: Files, a: Files, order: seq<string>): Files
    requires forall k :: k in order ==> k in a
    decreases |order|
  {
    if order == [] then files
    else OfferAll(cfg, files[order[0] := Offered(cfg, files, order[0], a[order[0]])], a, order[1..])
  }

  lemma {:induction false} MergeKeys(cfg: Config, files: Files, a: Files, keys: seq<string>)
    requires Healthy(cfg, files) && Healthy(cfg, a) && forall k :: k in keys ==> k in a
    ensures MergeLines(cfg, files, Lines(a, keys)) == Merged(OfferAll(cfg, files, a, keys), true)
    decreases |keys|
  {
    hide Travels, Verdict, MergeLine, Line;
    if keys != [] {
      var k := keys[0];
      var rest := Lines(a, keys[1..]);
      assert Lines(a, keys) == [Line(k, a[k])] + rest;
      assert ([Line(k, a[k])] + rest)[1..] == rest;
      MergeOneLine(cfg, files, k, a[k]);
      SaveOffers(cfg, files, k, a[k]);
      MergeKeys(cfg, files[k := Offered(cfg, files, k, a[k])], a, keys[1..]);
    }
  }

  lemma {:induction false} OfferAllAt(cfg: Config, files: Files, a: Files, order: seq<string>, k: string)
    requires Distinct(order) && forall x :: x in order ==> x in a
    ensures k in OfferAll(cfg, files, a, order) <==> k in files || k in order
    ensures k in OfferAll(cfg, files, a, order) ==>
              OfferAll(cfg, files, a, order)[k] == if k in order then Offered(cfg, files, k, a[k]) else files[k]
    decreases |order|
  {
    hide Verdict;
    if order != [] {
      var first := order[0];
      assert k in order <==> k == first || k in order[1..];
      assert first !in order[1..];
      OfferAllAt(cfg, files[first := Offered(cfg, files, first, a[first])], a, order[1..], k);
    }
  }

  /** The files after merging all of `a` into `b`. */
  function MergedWith(cfg: Config, b: Files, a: Files): Files {
    map k | k in a.Keys + b.Keys :: if k in a then Offered(cfg, b, k, a[k]) else b[k]
  }

  function Only(files: Files, keys: seq<string>): Files { map k | k in keys && k in files :: files[k] }

  lemma OfferAllIsMerge(cfg: Config, b: Files, a: Files, keys: seq<string>)
    requires Distinct(keys) && forall k :: k in keys ==> k in a
    ensures OfferAll(cfg, b, a, keys) == MergedWith(cfg, b, Only(a, keys))
  {
    hide Offered;
    forall k ensures k in OfferAll(cfg, b, a, keys) <==> k in MergedWith(cfg, b, Only(a, keys))
             ensures k in MergedWith(cfg, b, Only(a, keys)) ==> OfferAll(cfg, b, a, keys)[k] == MergedWith(cfg, b, Only(a, keys))[k] {
      OfferAllAt(cfg, b, a, keys, k);
    }
  }

  /** Merging a pack offers `b` every file that was packed, and no other. */
  lemma MergeOfPack(cfg: Config, b: Files, p: Packing, order: seq<string>, max: int)
    requires Healthy(cfg, p.files) && Healthy(cfg, b) && WalkOf(p.files, order)
    ensures var keys := Chosen(cfg, p, order, max);
            && (forall k :: k in keys ==> k in p.files)
            && MergeLines(cfg, b, Split(Join(Lines(p.files, keys), '\n'), Is('\n')))
               == Merged(MergedWith(cfg, b, Only(p.files, keys)), true)
  {
    hide Healthy, Offered, Chosen, OfferAll, MergedWith, Only;
    ChosenKeys(cfg, p, order, max);
    var a, keys := p.files, Chosen(cfg, p, order, max);
    MergeKeys(cfg, b, a, keys);
    OfferAllIsMerge(cfg, b, a, keys);
    if keys != [] {
      LinesAreClean(cfg, a, keys);
      hide Free, Split, Join;
      SplitJoin(Lines(a, keys), '\n', Is('\n'));
    } else {
      MergeBlank(cfg, b);
    }
  }

  lemma MergeBlank(cfg: Config, b: Files)
    ensures MergeLines(cfg, b, Split(Join([], '\n'), Is('\n'))) == Merged(b, true)
    ensures MergeLines(cfg, b, []) == Merged(b, true)
  {
    var blank := Split(Join([], '\n'), Is('\n'));
    assert blank == [""] && blank[1..] == [];
  }

  lemma {:induction false} LinesAreClean(cfg: Config, a: Files, keys: seq<string>)
    requires Healthy(cfg, a) && forall k :: k in keys ==> k in a
    ensures forall i :: 0 <= i < |Lines(a, keys)| ==> Free(Lines(a, keys)[i], Is('\n'))
    decreases |keys|
  {
    if keys != [] { LinesAreClean(cfg, a, keys[1..]); }
  }

  lemma {:induction false} ChosenOfAll(cfg: Config, p: Packing, order: seq<string>, max: int)
    requires forall k :: k in order ==> k in p.files && Packs(cfg, p, k)
    ensures Chosen(cfg, p, order, max) == if max < 0 || |order| <= max then order else order[..max]
    decreases |order|
  {
    hide Packs;
    if order != [] && max != 0 {
      ChosenOfAll(cfg, p, order[1..], max - 1);
      assert order == [order[0]] + order[1..];
      if 0 < max < |order| { assert order[..max] == [order[0]] + order[1..][..max - 1]; }
    }
  }

  /** The directory is packed whole exactly when every file is tracked and unexpired
      and the limit is not exceeded. */
  lemma PacksWhole(cfg: Config, p: Packing, order: seq<string>, max: int)
    requires WalkOf(p.files, order)
    ensures Only(p.files, Chosen(cfg, p, order, max)) == p.files <==>
            (forall k :: k in p.files ==> Packs(cfg, p, k)) && (max < 0 || |order| <= max)
  {
    hide Packs, Chosen;
    var keys := Chosen(cfg, p, order, max);
    ChosenKeys(cfg, p, order, max);
    if forall k :: k in p.files ==> Packs(cfg, p, k) {
      ChosenOfAll(cfg, p, order, max);
      if 0 <= max < |order| {
        assert order[max] !in order[..max];
        assert order[max] !in Only(p.files, keys) && order[max] in p.files;
      }
    } else {
      var k :| k in p.files && !Packs(cfg, p, k);
      assert k !in Only(p.files, keys);
    }
  }

  /** The eligible files of a walk. */
  function AllEligible(cfg: Config, p: Packing, order: seq<string>): set<string> {
    set k | k in order && Eligible(cfg, p, k)
  }

  /** What a pack of a directory leaves of it: eligible files only; all of them when
      there is room, and otherwise as many as there is room for; the whole directory
      exactly when every file is eligible and the limit is not exceeded. */
  ghost predicate Packed(cfg: Config, p: Packing, order: seq<string>, max: int, files: Files) {
    && (forall k :: k in files ==> Eligible(cfg, p, k) && files[k] == p.files[k])
    && (max < 0 || |AllEligible(cfg, p, order)| <= max ==> forall k :: k in files <==> Eligible(cfg, p, k))
    && (0 <= max < |AllEligible(cfg, p, order)| ==> |files| == max)
    && (files == p.files <==> (forall k :: k in p.files ==> Eligible(cfg, p, k)) && (max < 0 || |order| <= max))
  }

  lemma OnlySize(files: Files, keys: seq<string>)
    requires Distinct(keys) && forall k :: k in keys ==> k in files
    ensures |Only(files, keys)| == |keys| && Only(files, keys).Keys == set k | k in keys
  {
    var a := Only(files, keys);
    assert a.Keys == set k | k in keys;
    assert |a| == |a.Keys|;
    DistinctSize(keys);
  }

  lemma OnlyPacked(cfg: Config, p: Packing, order: seq<string>, max: int)
    requires WalkOf(p.files, order)
    ensures Packed(cfg, p, order, max, Only(p.files, Chosen(cfg, p, order, max)))
  {
    EligiblePacks(cfg, p);
    hide Packs, Chosen, Eligible;
    ChosenKeys(cfg, p, order, max);
    OnlySize(p.files, Chosen(cfg, p, order, max));
    PacksWhole(cfg, p, order, max);
    if max < 0 || |AllEligible(cfg, p, order)| <= max { AllEligibleAreChosen(cfg, p, order, max); }
    if 0 <= max < |AllEligible(cfg, p, order)| { FullPack(cfg, p, order, max); }
  }

  /** Merge undoes Pack: an empty store that merges a pack holds just what was packed. */
  lemma MergeUndoesPack(cfg: Config, p: Packing, order: seq<string>, max: int)
    requires Healthy(cfg, p.files) && WalkOf(p.files, order)
    ensures var keys := Chosen(cfg, p, order, max);
            && (forall k :: k in keys ==> k in p.files)
            && var merged := MergeLines(cfg, map[], Split(Join(Lines(p.files, keys), '\n'), Is('\n')));
            merged == Merged(Only(p.files, keys), true) && Packed(cfg, p, order, max, merged.files)
  {
    hide Packed, Chosen, MergeLines, Lines, Split, Join, Only;
    MergeOfPack(cfg, map[], p, order, max);
    var a := Only(p.files, Chosen(cfg, p, order, max));
    assert MergedWith(cfg, map[], a) == a;
    OnlyPacked(cfg, p, order, max);
  }

  lemma EligiblePacks(cfg: Config, p: Packing)
    ensures forall k :: k in p.files ==> (Packs(cfg, p, k) <==> Eligible(cfg, p, k))
    ensures forall k :: Eligible(cfg, p, k) ==> k in p.files
  {
  }

  lemma FullPack(cfg: Config, p: Packing, order: seq<string>, max: int)
    requires Distinct(order) && forall k :: k in order ==> k in p.files
    requires 0 <= max < |AllEligible(cfg, p, order)|
    ensures |Chosen(cfg, p, order, max)| == max
  {
    hide Packs, Eligible, Chosen;
    var keys := Chosen(cfg, p, order, max);
    ChosenKeys(cfg, p, order, max);
    var n := ChosenIsExact(cfg, p, order, max);
    if n == |order| {
      assert order[..n] == order;
      assert (set k | k in keys) == AllEligible(cfg, p, order);
      DistinctSize(keys);
    }
  }

  /** A store with room for the key that is offered a JWT writes just that file,
      unless it holds another JWT of the same hash. */
  lemma WriteIsUpdate(cfg: Config, st: State, k: string, jwt: string, now: int)
    requires Consistent(cfg, st) && jwt != "" && !MustEvict(cfg, st, k)
    ensures Write(cfg, st, k, jwt, now, {}).0.files == st.files[k := jwt]
            <==> !(k in st.files && cfg.sha(st.files[k]) == cfg.sha(jwt) && st.files[k] != jwt)
  {
    if k in st.files && st.files[k] == jwt { assert st.files[k := jwt] == st.files; }
    if k in st.files && st.files[k] != jwt { assert st.files[k := jwt][k] != st.files[k]; }
  }

  // ---------- Two replicas ----------

  function IssuedAt(cfg: Config, jwt: string): int {
    if cfg.decode(jwt).Some? then cfg.decode(jwt).value.issuedAt else 0
  }

  function Identity(cfg: Config, jwt: string): string {
    if cfg.decode(jwt).Some? then cfg.decode(jwt).value.id else ""
  }

  /** JWTs with the same identity are the same text. */
  predicate IdentityNames(cfg: Config, x: string, y: string) {
    Identity(cfg, x) == Identity(cfg, y) ==> x == y
  }

  /** Two JWTs of a key that were issued at the same time are the same. */
  predicate Untied(cfg: Config, x: string, y: string) {
    IssuedAt(cfg, x) == IssuedAt(cfg, y) ==> x == y
  }

  /** After an exchange in which each replica merges the files the other had
      before, both hold the same exactly when no key is held in two versions of
      the same identity or of the same issue time. */
  lemma CrossExchangeConverges(cfg: Config, a: Files, b: Files)
    requires Healthy(cfg, a) && Healthy(cfg, b)
    ensures MergedWith(cfg, a, b) == MergedWith(cfg, b, a) <==>
            forall k :: k in a && k in b ==> IdentityNames(cfg, a[k], b[k]) && Untied(cfg, a[k], b[k])
  {
    var p, q := MergedWith(cfg, a, b), MergedWith(cfg, b, a);
    assert p.Keys == q.Keys == a.Keys + b.Keys;
    forall k | k in p ensures p[k] == q[k] <==>
        (k in a && k in b ==> IdentityNames(cfg, a[k], b[k]) && Untied(cfg, a[k], b[k])) {
      if k in a && k in b {
        CrossOffers(cfg, k, a, b);
      }
    }
    if p == q {
      forall k | k in a && k in b ensures IdentityNames(cfg, a[k], b[k]) && Untied(cfg, a[k], b[k]) {
        assert k in p;
      }
    }
  }

  lemma CrossOffers(cfg: Config, k: string, a: Files, b: Files)
    requires k in a && k in b && Travels(cfg, k, a[k]) && Travels(cfg, k, b[k])
    ensures Offered(cfg, a, k, b[k]) == Offered(cfg, b, k, a[k]) <==>
            IdentityNames(cfg, a[k], b[k]) && Untied(cfg, a[k], b[k])
  {
  }

  /** An exchange in turn converges whatever the issue times: only two texts of
      the same identity keep replicas apart. */
  lemma ExchangeInTurnConverges(cfg: Config, a: Files, b: Files)
    requires Healthy(cfg, a) && Healthy(cfg, b)
    ensures var b' := MergedWith(cfg, b, a);
            var a' := MergedWith(cfg, a, b');
            a' == b' <==> forall k :: k in a && k in b ==> IdentityNames(cfg, a[k], b[k])
  {
    var b' := MergedWith(cfg, b, a);
    var a' := MergedWith(cfg, a, b');
    assert a'.Keys == b'.Keys == a.Keys + b.Keys;
    forall k | k in a' ensures a'[k] == b'[k] <==> (k in a && k in b ==> IdentityNames(cfg, a[k], b[k])) {
      if k in a {
        OfferBack(cfg, k, a, b);
      }
    }
    if a' == b' {
      forall k | k in a && k in b ensures IdentityNames(cfg, a[k], b[k]) {
        assert k in a';
      }
    }
  }

  lemma OfferBack(cfg: Config, k: string, a: Files, b: Files)
    requires k in a && Travels(cfg, k, a[k]) && (k in b ==> Travels(cfg, k, b[k]))
    ensures var x := Offered(cfg, b, k, a[k]);
            Offered(cfg, a, k, x) == x <==> (k in b ==> IdentityNames(cfg, a[k], b[k]))
  {
  }

  /** For each key that `a` or `b` holds, `r` holds the one or the other, and none that
      is older than either. */
  ghost predicate Newest(cfg: Config, r: Files, a: Files, b: Files) {
    && r.Keys == a.Keys + b.Keys
    && forall k :: k in r ==>
         && ((k in a && r[k] == a[k]) || (k in b && r[k] == b[k]))
         && (k in a ==> IssuedAt(cfg, a[k]) <= IssuedAt(cfg, r[k]))
         && (k in b ==> IssuedAt(cfg, b[k]) <= IssuedAt(cfg, r[k]))
  }

  ghost predicate AllNamed(cfg: Config, a: Files, b: Files) {
    forall k :: k in a && k in b ==> IdentityNames(cfg, a[k], b[k])
  }

  /** When an identity names one text, merging `a` into `b` gives the newest of both. */
  lemma MergedIsNewest(cfg: Config, b: Files, a: Files)
    requires Healthy(cfg, a) && Healthy(cfg, b) && AllNamed(cfg, a, b)
    ensures Newest(cfg, MergedWith(cfg, b, a), a, b)
  {
    var r := MergedWith(cfg, b, a);
    forall k | k in r
      ensures (k in a && r[k] == a[k]) || (k in b && r[k] == b[k])
      ensures k in a ==> IssuedAt(cfg, a[k]) <= IssuedAt(cfg, r[k])
      ensures k in b ==> IssuedAt(cfg, b[k]) <= IssuedAt(cfg, r[k])
    {
      if k in a && k in b { assert IdentityNames(cfg, a[k], b[k]); }
    }
  }

  /** After an exchange in turn of stores whose identities name one text each, both
      directories hold the newest, and the digests are equal. */
  lemma ExchangeInTurnMeets(cfg: Config, a: Files, b: Files, x: State, y: State)
    requires Healthy(cfg, a) && Healthy(cfg, b) && AllNamed(cfg, a, b) && Consistent(cfg, x) && Consistent(cfg, y)
    requires y.files == MergedWith(cfg, b, a) && x.files == MergedWith(cfg, a, y.files)
    ensures Newest(cfg, x.files, a, b) && x.files == y.files && Recomputed(x.entries) == Recomputed(y.entries)
  {
    hide Consistent, Healthy, MergedWith, Newest;
    MergedIsNewest(cfg, b, a);
    ExchangeInTurnConverges(cfg, a, b);
    SameFilesSameDigest(cfg, x, y);
  }

  /** So do packs taken at the same time, when issue times differ too. */
  lemma CrossExchangeMeets(cfg: Config, a: Files, b: Files, x: State, y: State)
    requires Healthy(cfg, a) && Healthy(cfg, b) && AllNamed(cfg, a, b) && Consistent(cfg, x) && Consistent(cfg, y)
    requires forall k :: k in a && k in b ==> Untied(cfg, a[k], b[k])
    requires x.files == MergedWith(cfg, a, b) && y.files == MergedWith(cfg, b, a)
    ensures Newest(cfg, x.files, a, b) && x.files == y.files && Recomputed(x.entries) == Recomputed(y.entries)
  {
    hide Consistent, Healthy, MergedWith, Newest, IdentityNames, Untied;
    MergedIsNewest(cfg, b, a);
    CrossExchangeConverges(cfg, a, b);
    SameFilesSameDigest(cfg, x, y);
  }

  /** What a store holds for a key is never replaced by an older JWT. */
  lemma OfferedIsNotOlder(cfg: Config, files: Files, k: string, jwt: string)
    requires Healthy(cfg, files) && Travels(cfg, k, jwt)
    ensures k in files ==> IssuedAt(cfg, files[k]) <= IssuedAt(cfg, Offered(cfg, files, k, jwt))
    ensures (k in files && Identity(cfg, files[k]) == Identity(cfg, jwt))
            || IssuedAt(cfg, jwt) <= IssuedAt(cfg, Offered(cfg, files, k, jwt))
  {
  }

  // ---------- Any number of replicas ----------

  /** A pack line on its way: a key and a JWT. */
  datatype Letter = Letter(key: string, jwt: string)

  /** A letter whose comparison, at time `at`, decided to write it. */
  datatype Offer = Offer(letter: Letter, at: nat)

  /** The replicas' files, the letters ever sent, for each replica the offers that
      it has still to write and the letters it is done with, and the time. */
  datatype Net = Net(stores: seq<Files>, sent: set<Letter>, pending: seq<multiset<Offer>>, got: seq<set<Letter>>, clock: nat)

  datatype Event =
    | Send(from: nat, key: string)
    | Compare(to: nat, letter: Letter)
    | Apply(to: nat, offer: Offer)

  ghost predicate NetStep(cfg: Config, n: Net, e: Event, n': Net) {
    && |n.got| == |n.stores| == |n.pending| && n'.clock == n.clock + 1
    && match e
       case Send(i, k) =>
         && i < |n.stores| && k in n.stores[i]
         && n' == n.(sent := n.sent + {Letter(k, n.stores[i][k])}, clock := n'.clock)
       case Compare(j, l) =>
         && j < |n.stores| && l in n.sent
         && n' == (if Judge(cfg, n.stores[j], l.key, l.jwt).Accept?
                   then n.(pending := n.pending[j := n.pending[j] + multiset{Offer(l, n.clock)}], clock := n'.clock)
                   else n.(got := n.got[j := n.got[j] + {l}], clock := n'.clock))
       case Apply(j, o) =>
         && j < |n.stores| && o in n.pending[j]
         && n' == n.(stores := n.stores[j := n.stores[j][o.letter.key := o.letter.jwt]],
                     pending := n.pending[j := n.pending[j] - multiset{o}],
                     got := n.got[j := n.got[j] + {o.letter}], clock := n'.clock)
  }

  /** Letters may be lost, repeated and reordered: a sent letter can be compared at
      any time, any number of times or never, and any number of comparisons of a
      replica can be waiting for their write. */
  ghost predicate NetRun(cfg: Config, nets: seq<Net>, events: seq<Event>) {
    |nets| == |events| + 1 && forall i :: 0 <= i < |events| ==> NetStep(cfg, nets[i], events[i], nets[i + 1])
  }

  /** Nothing sent, compared or given yet. */
  ghost predicate Quiet(n: Net) {
    && n.sent == {} && |n.got| == |n.stores| == |n.pending| && n.clock == 0
    && forall j :: 0 <= j < |n.got| ==> n.got[j] == {} && n.pending[j] == multiset{}
  }

  /** A comparison that is followed by its write at once is `SaveIfNewer`. */
  lemma UninterruptedSave(cfg: Config, n: Net, j: nat, l: Letter, n': Net, n'': Net)
    requires NetStep(cfg, n, Compare(j, l), n')
    requires Judge(cfg, n.stores[j], l.key, l.jwt).Accept? ==> NetStep(cfg, n', Apply(j, Offer(l, n.clock)), n'')
    ensures var end := if Judge(cfg, n.stores[j], l.key, l.jwt).Accept? then n'' else n';
            && end.stores == n.stores[j := SaveIfNewer(cfg, n.stores[j], l.key, l.jwt).files]
            && end.pending == n.pending && end.got == n.got[j := n.got[j] + {l}]
  {
    hide Judge;
    var o := Offer(l, n.clock);
    assert n.pending[j] + multiset{o} - multiset{o} == n.pending[j];
  }

  // ---------- When issue times fall ----------

  /** `y` is older than `x`, or cannot be decoded where `x` can. */
  predicate Lower(cfg: Config, x: string, y: string) {
    cfg.decode(x).Some? && (cfg.decode(y).None? || cfg.decode(y).value.issuedAt < cfg.decode(x).value.issuedAt)
  }

  /** No key of a replica is lost or gets an older JWT. */
  ghost predicate Rises(cfg: Config, a: Files, b: Files) {
    forall k :: k in a ==> k in b && !Lower(cfg, a[k], b[k])
  }

  ghost predicate AllRise(cfg: Config, n: Net, n': Net) {
    |n'.stores| == |n.stores| && forall j :: 0 <= j < |n.stores| ==> Rises(cfg, n.stores[j], n'.stores[j])
  }

  /** The write at `t` was decided by a comparison before `u`, when a newer JWT of
      its key was written. */
  predicate Overtaken(cfg: Config, events: seq<Event>, u: nat, t: nat) {
    && u < t < |events| && events[u].Apply? && events[t].Apply? && events[u].to == events[t].to
    && events[t].offer.at < u && events[u].offer.letter.key == events[t].offer.letter.key
    && Lower(cfg, events[u].offer.letter.jwt, events[t].offer.letter.jwt)
  }

  lemma {:induction false} Steady(cfg: Config, nets: seq<Net>, events: seq<Event>, t: nat)
    requires NetRun(cfg, nets, events) && t <= |events| && Quiet(nets[0])
    ensures nets[t].clock == t && |nets[t].stores| == |nets[t].pending| == |nets[t].got| == |nets[0].stores|
    decreases t
  {
    hide Judge;
    if t > 0 {
      Steady(cfg, nets, events, t - 1);
      assert NetStep(cfg, nets[t - 1], events[t - 1], nets[t]);
    }
  }

  /** An offer waits since the step before or longer. */
  lemma StepPending(cfg: Config, n: Net, e: Event, n': Net, j: nat, o: Offer)
    requires NetStep(cfg, n, e, n') && j < |n'.pending| && o in n'.pending[j]
    ensures |n'.pending| == |n.stores| == |n.pending|
    ensures o in n.pending[j]
            || (e == Compare(j, o.letter) && o.at == n.clock && Judge(cfg, n.stores[j], o.letter.key, o.letter.jwt).Accept?)
  {
    hide Judge;
  }

  /** An offer that waits was accepted at its time. */
  lemma {:induction false} WasCompared(cfg: Config, nets: seq<Net>, events: seq<Event>, t: nat, j: nat, o: Offer)
    requires NetRun(cfg, nets, events) && t <= |events| && Quiet(nets[0])
    requires j < |nets[t].pending| && o in nets[t].pending[j]
    ensures o.at < t && events[o.at] == Compare(j, o.letter) && j < |nets[o.at].stores|
    ensures Judge(cfg, nets[o.at].stores[j], o.letter.key, o.letter.jwt).Accept?
    decreases t
  {
    hide Judge;
    Steady(cfg, nets, events, t);
    if t > 0 {
      Steady(cfg, nets, events, t - 1);
      assert NetStep(cfg, nets[t - 1], events[t - 1], nets[t]);
      StepPending(cfg, nets[t - 1], events[t - 1], nets[t], j, o);
      hide NetStep;
      if o in nets[t - 1].pending[j] {
        WasCompared(cfg, nets, events, t - 1, j, o);
      }
    }
  }

  ghost predicate Writes(events: seq<Event>, u: nat, j: nat, k: string, jwt: string) {
    u < |events| && events[u].Apply? && events[u].to == j && events[u].offer.letter == Letter(k, jwt)
  }

  /** What a replica holds was there at time `s` or was written since. */
  lemma {:induction false} LastWriter(cfg: Config, nets: seq<Net>, events: seq<Event>, s: nat, t: nat, j: nat, k: string)
    requires NetRun(cfg, nets, events) && s <= t <= |events| && Quiet(nets[0])
    requires j < |nets[0].stores| && j < |nets[t].stores| && k in nets[t].stores[j]
    ensures j < |nets[s].stores|
    ensures (k in nets[s].stores[j] && nets[s].stores[j][k] == nets[t].stores[j][k])
            || exists u: nat :: s <= u < t && Writes(events, u, j, k, nets[t].stores[j][k])
    decreases t
  {
    hide Judge;
    Steady(cfg, nets, events, s);
    if s < t {
      Steady(cfg, nets, events, t - 1);
      assert NetStep(cfg, nets[t - 1], events[t - 1], nets[t]);
      if Writes(events, t - 1, j, k, nets[t].stores[j][k]) {
      } else {
        LastWriter(cfg, nets, events, s, t - 1, j, k);
      }
    }
  }

  /** An accepted JWT is not older than what it was compared with. */
  lemma AcceptedIsNotLower(cfg: Config, files: Files, k: string, jwt: string)
    requires Judge(cfg, files, k, jwt).Accept? && k in files
    ensures !Lower(cfg, files[k], jwt)
  {
  }

  /** Nothing is older than itself. */
  lemma NeverLower(cfg: Config, n: Net)
    ensures forall j, k :: 0 <= j < |n.stores| && k in n.stores[j] ==> !Lower(cfg, n.stores[j][k], n.stores[j][k])
  {
  }

  /** A step lowers an issue time exactly when it writes a JWT that is older than
      what is there by then. */
  lemma StepRises(cfg: Config, n: Net, e: Event, n': Net)
    requires NetStep(cfg, n, e, n')
    ensures AllRise(cfg, n, n') <==>
            !(e.Apply? && e.offer.letter.key in n.stores[e.to]
              && Lower(cfg, n.stores[e.to][e.offer.letter.key], e.offer.letter.jwt))
  {
    hide Judge, Lower;
    NeverLower(cfg, n);
    if e.Apply? && AllRise(cfg, n, n') { assert Rises(cfg, n.stores[e.to], n'.stores[e.to]); }
  }

  /** A step lowers an issue time only when it writes a JWT that was overtaken. */
  lemma FallIsOvertaken(cfg: Config, nets: seq<Net>, events: seq<Event>, t: nat)
    requires NetRun(cfg, nets, events) && t < |events| && Quiet(nets[0]) && !AllRise(cfg, nets[t], nets[t + 1])
    ensures exists u: nat :: Overtaken(cfg, events, u, t)
  {
    hide Judge, Lower;
    Steady(cfg, nets, events, t);
    assert NetStep(cfg, nets[t], events[t], nets[t + 1]);
    StepRises(cfg, nets[t], events[t], nets[t + 1]);
    var j, o := events[t].to, events[t].offer;
    var k := o.letter.key;
    WasCompared(cfg, nets, events, t, j, o);
    LastWriter(cfg, nets, events, o.at, t, j, k);
    if k in nets[o.at].stores[j] { AcceptedIsNotLower(cfg, nets[o.at].stores[j], k, o.letter.jwt); }
    var u: nat :| o.at <= u < t && Writes(events, u, j, k, nets[t].stores[j][k]);
    assert Overtaken(cfg, events, u, t);
  }

  lemma LowerIsTransitive(cfg: Config, x: string, y: string, z: string)
    requires !Lower(cfg, x, y) && !Lower(cfg, y, z)
    ensures !Lower(cfg, x, z)
  {
  }

  /** From `s` to `t` no issue time falls. */
  lemma {:induction false} RisesOver(cfg: Config, nets: seq<Net>, events: seq<Event>, s: nat, t: nat, j: nat, k: string)
    requires NetRun(cfg, nets, events) && s <= t <= |events|
    requires forall i :: s <= i < t ==> AllRise(cfg, nets[i], nets[i + 1])
    requires j < |nets[s].stores| && k in nets[s].stores[j]
    ensures j < |nets[t].stores| && k in nets[t].stores[j] && !Lower(cfg, nets[s].stores[j][k], nets[t].stores[j][k])
    decreases t
  {
    hide NetStep, Lower;
    if s < t {
      RisesOver(cfg, nets, events, s, t - 1, j, k);
      assert AllRise(cfg, nets[t - 1], nets[t]);
      LowerIsTransitive(cfg, nets[s].stores[j][k], nets[t - 1].stores[j][k], nets[t].stores[j][k]);
    } else {
      NeverLower(cfg, nets[s]);
    }
  }

  /** A write that was overtaken means that some issue time falls by then. */
  lemma OvertakenFalls(cfg: Config, nets: seq<Net>, events: seq<Event>, u: nat, t: nat)
    requires NetRun(cfg, nets, events) && Quiet(nets[0]) && Overtaken(cfg, events, u, t)
    ensures exists i :: 0 <= i < |events| && !AllRise(cfg, nets[i], nets[i + 1])
  {
    hide Judge, Lower, AllRise;
    var j, k := events[u].to, events[u].offer.letter.key;
    Steady(cfg, nets, events, u);
    Steady(cfg, nets, events, t);
    assert NetStep(cfg, nets[u], events[u], nets[u + 1]);
    assert NetStep(cfg, nets[t], events[t], nets[t + 1]);
    assert nets[u + 1].stores[j][k] == events[u].offer.letter.jwt;
    assert nets[t + 1].stores[j][k] == events[t].offer.letter.jwt;
    if forall i :: 0 <= i < |events| ==> AllRise(cfg, nets[i], nets[i + 1]) {
      RisesOver(cfg, nets, events, u + 1, t + 1, j, k);
    }
  }

  /** Over every run, from whatever files and of whatever JWTs: no issue time ever
      falls exactly when no write comes after a newer write of its key that its own
      comparison did not see. */
  lemma IssueTimesNeverFall(cfg: Config, nets: seq<Net>, events: seq<Event>)
    requires NetRun(cfg, nets, events) && Quiet(nets[0])
    ensures (forall i :: 0 <= i < |events| ==> AllRise(cfg, nets[i], nets[i + 1]))
            <==> !exists u: nat, t: nat :: Overtaken(cfg, events, u, t)
  {
    hide NetStep, AllRise, Overtaken;
    if u: nat, t: nat :| Overtaken(cfg, events, u, t) {
      OvertakenFalls(cfg, nets, events, u, t);
    }
    if i :| 0 <= i < |events| && !AllRise(cfg, nets[i], nets[i + 1]) {
      FallIsOvertaken(cfg, nets, events, i);
    }
  }

  /** Two offers of a key that are compared before either is written: the older one,
      written last, stays. */
  lemma LateWriteLowers(cfg: Config, n: Net, j: nat, k: string, x: string, y: string)
    requires |n.got| == |n.stores| == |n.pending| && j < |n.stores|
    requires Letter(k, x) in n.sent && Letter(k, y) in n.sent && Lower(cfg, y, x)
    requires Judge(cfg, n.stores[j], k, x).Accept? && Judge(cfg, n.stores[j], k, y).Accept?
    ensures exists nets: seq<Net> :: NetRun(cfg, nets, LateWrite(n, j, k, x, y)) && nets[0] == n
              && |nets[3].stores| == |nets[4].stores| == |n.stores|
              && nets[3].stores[j] == n.stores[j][k := y] && nets[4].stores[j] == n.stores[j][k := x]
  {
    hide Judge, Lower;
    var ox, oy := Offer(Letter(k, x), n.clock), Offer(Letter(k, y), n.clock + 1);
    var a := n.(pending := n.pending[j := n.pending[j] + multiset{ox}], clock := n.clock + 1);
    var b := a.(pending := a.pending[j := a.pending[j] + multiset{oy}], clock := n.clock + 2);
    var c := b.(stores := b.stores[j := b.stores[j][k := y]], pending := b.pending[j := b.pending[j] - multiset{oy}],
                got := b.got[j := b.got[j] + {oy.letter}], clock := n.clock + 3);
    var d := c.(stores := c.stores[j := c.stores[j][k := x]], pending := c.pending[j := c.pending[j] - multiset{ox}],
                got := c.got[j := c.got[j] + {ox.letter}], clock := n.clock + 4);
    var nets := [n, a, b, c, d];
    assert d.stores[j] == n.stores[j][k := x];
    assert NetRun(cfg, nets, LateWrite(n, j, k, x, y));
  }

  function LateWrite(n: Net, j: nat, k: string, x: string, y: string): seq<Event> {
    var lx, ly := Letter(k, x), Letter(k, y);
    [Compare(j, lx), Compare(j, ly), Apply(j, Offer(ly, n.clock + 1)), Apply(j, Offer(lx, n.clock))]
  }

  // ---------- Convergence ----------

  /** The letters that a store holds. */
  function Held(files: Files): set<Letter> { set k | k in files :: Letter(k, files[k]) }

  /** A pool of letters that can all travel, and in which no key has two JWTs of
      the same identity or of the same issue time. */
  ghost predicate GoodPool(cfg: Config, pool: set<Letter>) {
    && (forall l :: l in pool ==> Travels(cfg, l.key, l.jwt))
    && (forall l, m :: l in pool && m in pool && l.key == m.key ==>
          IdentityNames(cfg, l.jwt, m.jwt) && Untied(cfg, l.jwt, m.jwt))
  }

  ghost predicate DrawnFrom(n: Net, pool: set<Letter>) {
    && |n.got| == |n.stores| == |n.pending| && n.sent <= pool
    && (forall j :: 0 <= j < |n.stores| ==> Held(n.stores[j]) <= pool && n.got[j] <= pool)
    && (forall j, o :: 0 <= j < |n.stores| && o in n.pending[j] ==> o.letter in pool)
  }

  /** For each letter that a replica is done with or once held, it now holds a JWT
      of that key that is at least as new. */
  ghost predicate AsNewAs(cfg: Config, files: Files, letters: set<Letter>) {
    forall l :: l in letters ==> l.key in files && IssuedAt(cfg, l.jwt) <= IssuedAt(cfg, files[l.key])
  }

  lemma HealthyInPool(cfg: Config, files: Files, pool: set<Letter>)
    requires Held(files) <= pool && GoodPool(cfg, pool)
    ensures Healthy(cfg, files)
  {
    forall k | k in files ensures Travels(cfg, k, files[k]) {
      assert Letter(k, files[k]) in Held(files);
    }
  }

  /** A letter that a comparison turns down is not newer than what is held. */
  lemma TurnedDown(cfg: Config, files: Files, l: Letter, pool: set<Letter>, letters: set<Letter>)
    requires GoodPool(cfg, pool) && Held(files) <= pool && l in pool && AsNewAs(cfg, files, letters)
    requires !Judge(cfg, files, l.key, l.jwt).Accept?
    ensures AsNewAs(cfg, files, letters + {l})
  {
    HealthyInPool(cfg, files, pool);
    if l.key in files {
      assert Letter(l.key, files[l.key]) in Held(files);
      assert IdentityNames(cfg, files[l.key], l.jwt);
    }
  }

  lemma WrittenIsNewest(cfg: Config, files: Files, l: Letter, pool: set<Letter>, letters: set<Letter>)
    requires GoodPool(cfg, pool) && Held(files) <= pool && l in pool && AsNewAs(cfg, files, letters)
    requires Rises(cfg, files, files[l.key := l.jwt])
    ensures Held(files[l.key := l.jwt]) <= pool && AsNewAs(cfg, files[l.key := l.jwt], letters + {l})
  {
    HealthyInPool(cfg, files, pool);
    var after := files[l.key := l.jwt];
    forall m | m in Held(after) ensures m in pool {
      if m.key in files { assert Letter(m.key, files[m.key]) in Held(files); }
    }
  }

  /** What every step keeps; `first` is where the run started. */
  ghost predicate InSync(cfg: Config, first: Net, n: Net, pool: set<Letter>) {
    && GoodPool(cfg, pool) && DrawnFrom(n, pool) && |n.stores| == |first.stores|
    && forall j :: 0 <= j < |n.stores| ==> AsNewAs(cfg, n.stores[j], Held(first.stores[j]) + n.got[j])
  }

  lemma StepInSync(cfg: Config, first: Net, n: Net, e: Event, n': Net, pool: set<Letter>)
    requires InSync(cfg, first, n, pool) && NetStep(cfg, n, e, n') && AllRise(cfg, n, n')
    ensures InSync(cfg, first, n', pool)
  {
    hide GoodPool, AsNewAs, Travels, Judge, Rises, Held;
    match e
    case Send(i, k) => HeldHas(n.stores[i], k);
    case Compare(i, l) =>
      var letters := Held(first.stores[i]) + n.got[i];
      if !Judge(cfg, n.stores[i], l.key, l.jwt).Accept? {
        TurnedDown(cfg, n.stores[i], l, pool, letters);
        assert letters + {l} == Held(first.stores[i]) + n'.got[i];
      }
    case Apply(i, o) =>
      var letters := Held(first.stores[i]) + n.got[i];
      WrittenIsNewest(cfg, n.stores[i], o.letter, pool, letters);
      assert letters + {o.letter} == Held(first.stores[i]) + n'.got[i];
  }

  lemma HeldHas(files: Files, k: string)
    requires k in files
    ensures Letter(k, files[k]) in Held(files)
  {
  }

  lemma {:induction false} RunInSync(cfg: Config, nets: seq<Net>, events: seq<Event>, pool: set<Letter>, t: nat)
    requires NetRun(cfg, nets, events) && t <= |events|
    requires forall i :: 0 <= i < |events| ==> AllRise(cfg, nets[i], nets[i + 1])
    requires Quiet(nets[0]) && GoodPool(cfg, pool) && forall j :: 0 <= j < |nets[0].stores| ==> Held(nets[0].stores[j]) <= pool
    ensures InSync(cfg, nets[0], nets[t], pool)
    decreases t
  {
    hide NetStep, AllRise, GoodPool;
    if t == 0 {
      forall j | 0 <= j < |nets[0].stores| ensures AsNewAs(cfg, nets[0].stores[j], Held(nets[0].stores[j]) + nets[0].got[j]) {
      }
    } else {
      RunInSync(cfg, nets, events, pool, t - 1);
      assert NetStep(cfg, nets[t - 1], events[t - 1], nets[t]) && AllRise(cfg, nets[t - 1], nets[t]);
      StepInSync(cfg, nets[0], nets[t - 1], events[t - 1], nets[t], pool);
    }
  }

  /** In a run in which no write is overtaken, two replicas that are done with, or
      started with, every letter of the pool hold the same files: for each key the
      newest JWT of the pool. */
  lemma ReplicasConverge(cfg: Config, nets: seq<Net>, events: seq<Event>, pool: set<Letter>, t: nat, i: nat, j: nat)
    requires NetRun(cfg, nets, events) && t <= |events| && !exists u: nat, v: nat :: Overtaken(cfg, events, u, v)
    requires Quiet(nets[0]) && GoodPool(cfg, pool) && forall m :: 0 <= m < |nets[0].stores| ==> Held(nets[0].stores[m]) <= pool
    requires i < |nets[0].stores| && j < |nets[0].stores| && |nets[t].stores| == |nets[t].got| == |nets[0].stores|
    requires pool <= Held(nets[0].stores[i]) + nets[t].got[i]
    requires pool <= Held(nets[0].stores[j]) + nets[t].got[j]
    ensures nets[t].stores[i] == nets[t].stores[j]
    ensures forall l :: l in pool ==> l.key in nets[t].stores[i] && IssuedAt(cfg, l.jwt) <= IssuedAt(cfg, nets[t].stores[i][l.key])
  {
    hide NetStep, AllRise, GoodPool, Overtaken;
    IssueTimesNeverFall(cfg, nets, events);
    RunInSync(cfg, nets, events, pool, t);
    var n := nets[t];
    assert AsNewAs(cfg, n.stores[i], pool) && AsNewAs(cfg, n.stores[j], pool);
    SameNewest(cfg, n.stores[i], n.stores[j], pool);
  }

  lemma SameNewest(cfg: Config, a: Files, b: Files, pool: set<Letter>)
    requires GoodPool(cfg, pool) && Held(a) <= pool && Held(b) <= pool && AsNewAs(cfg, a, pool) && AsNewAs(cfg, b, pool)
    ensures a == b
  {
    forall k | k in a ensures k in b && a[k] == b[k] {
      assert Letter(k, a[k]) in Held(a);
      assert Letter(k, b[k]) in Held(b);
      assert Untied(cfg, a[k], b[k]);
    }
    forall k | k in b ensures k in a {
      assert Letter(k, b[k]) in Held(b);
    }
  }
}
