/** Expansion of permission templates: the Cartesian product of the values of a
    subject's template tokens, enumerated by an odometer under a size cap. */
module TemplateExpansion {
  import opened Division
  import opened Optional

  // ---------- Mixed-radix numbers ----------

  function Product<T>(a: seq<seq<T>>): nat {
    if a == [] then 1 else |a[0]| * Product(a[1..])
  }

  lemma NothingIsOne<T>()
    ensures Product<T>([]) == 1
  {
  }

  /** One index for each list. */
  predicate IsTuple<T>(a: seq<seq<T>>, n: seq<nat>) {
    |n| == |a| && forall j :: 0 <= j < |a| ==> n[j] < |a[j]|
  }

  function Value<T>(a: seq<seq<T>>, n: seq<nat>): nat
    requires |n| == |a|
  {
    if a == [] then 0 else n[0] * Product(a[1..]) + Value(a[1..], n[1..])
  }

  /** The tuple of a row number. */
  function Expand<T>(a: seq<seq<T>>, i: nat): seq<nat>
    requires i < Product(a)
  {
    if a == [] then []
    else
      RestIsNotEmpty(a, i);
      [i / Product(a[1..])] + Expand(a[1..], i % Product(a[1..]))
  }

  lemma RestIsNotEmpty<T>(a: seq<seq<T>>, i: nat)
    requires a != [] && i < Product(a)
    ensures Product(a[1..]) > 0 && i % Product(a[1..]) < Product(a[1..])
  {
    TimesOrder(|a[0]|, 0, Product(a[1..]));
    assert Product(a) == |a[0]| * Product(a[1..]);
  }

  /** The values a tuple selects. */
  function Pick<T>(a: seq<seq<T>>, n: seq<nat>): seq<T>
    requires IsTuple(a, n)
  {
    seq(|a|, j requires 0 <= j < |a| => a[j][n[j]])
  }

  predicate Before(m: seq<nat>, n: seq<nat>)
    requires |m| == |n|
  {
    m != [] && (m[0] < n[0] || (m[0] == n[0] && Before(m[1..], n[1..])))
  }

  lemma QuotientInRange(i: nat, k: nat, d: nat)
    requires i < k * d && d > 0
    ensures i / d < k
  {
    assert i == (i / d) * d + i % d;
    TimesOrder(k, i / d, d);
  }

  lemma HigherDigitDecides(m: nat, x: nat, n: nat, y: nat, d: nat)
    requires x < d && y < d
    ensures m * d + x < n * d + y <==> m < n || (m == n && x < y)
  {
    TimesOrder(m + 1, n, d);
    TimesOrder(n + 1, m, d);
  }

  lemma DivModBack(i: nat, d: nat)
    requires d > 0
    ensures (i / d) * d + i % d == i
  {
  }

  /** Rows and tuples correspond one to one. */
  lemma {:induction false} ExpandInvertsValue<T>(a: seq<seq<T>>, n: seq<nat>)
    requires IsTuple(a, n)
    ensures Value(a, n) < Product(a) && Expand(a, Value(a, n)) == n
    decreases |a|
  {
    if a != [] {
      var d := Product(a[1..]);
      ExpandInvertsValue(a[1..], n[1..]);
      var r := Value(a[1..], n[1..]);
      assert (n[0] + 1) * d <= |a[0]| * d;
      DivModIs(n[0], r, d);
      assert n == [n[0]] + n[1..];
    }
  }

  lemma {:induction false} ValueInvertsExpand<T>(a: seq<seq<T>>, i: nat)
    requires i < Product(a)
    ensures IsTuple(a, Expand(a, i)) && Value(a, Expand(a, i)) == i
    decreases |a|
  {
    if a != [] {
      var d := Product(a[1..]);
      RestIsNotEmpty(a, i);
      QuotientInRange(i, |a[0]|, d);
      ValueInvertsExpand(a[1..], i % d);
      DivModBack(i, d);
      var n := Expand(a, i);
      var q, rest := i / d, Expand(a[1..], i % d);
      assert n == [q] + rest && n[1..] == rest;
      hide Expand, Product;
      forall j | 0 <= j < |a| ensures n[j] < |a[j]| {
        if j > 0 { assert n[j] == n[1..][j - 1] && a[j] == a[1..][j - 1]; }
      }
    }
  }

  /** Row numbers follow the lexicographic order of the tuples. */
  lemma {:induction false} ValueIsLexicographic<T>(a: seq<seq<T>>, m: seq<nat>, n: seq<nat>)
    requires IsTuple(a, m) && IsTuple(a, n)
    ensures Before(m, n) <==> Value(a, m) < Value(a, n)
    decreases |a|
  {
    if a != [] {
      var d := Product(a[1..]);
      ExpandInvertsValue(a[1..], m[1..]);
      ExpandInvertsValue(a[1..], n[1..]);
      ValueIsLexicographic(a[1..], m[1..], n[1..]);
      HigherDigitDecides(m[0], Value(a[1..], m[1..]), n[0], Value(a[1..], n[1..]), d);
    }
  }

  // ---------- The odometer ----------

  lemma {:induction false} DigitWeighs<T>(a: seq<seq<T>>, n: seq<nat>, j: nat, x: nat)
    requires |n| == |a| && j < |n|
    ensures Value(a, n[j := x]) + n[j] * Product(a[j + 1..]) == Value(a, n) + x * Product(a[j + 1..])
    decreases j
  {
    if j == 0 {
      assert n[0 := x][1..] == n[1..];
    } else {
      assert n[j := x][1..] == n[1..][j - 1 := x];
      assert a[1..][j..] == a[j + 1..];
      DigitWeighs(a[1..], n[1..], j - 1, x);
    }
  }

  /** Turning one digit: no carry, or a carry to the digit before. */
  lemma DigitTurns<T>(a: seq<seq<T>>, n: seq<nat>, j: nat)
    requires IsTuple(a, n) && j < |n|
    ensures n[j] + 1 < |a[j]| ==> Value(a, n[j := n[j] + 1]) == Value(a, n) + Product(a[j + 1..])
    ensures n[j] + 1 == |a[j]| ==> Value(a, n[j := 0]) + Product(a[j..]) == Value(a, n) + Product(a[j + 1..])
  {
    hide Value, Product;
    DigitWeighs(a, n, j, n[j] + 1);
    DigitWeighs(a, n, j, 0);
    ProductFrom(a, j);
    Distributes(n[j], Product(a[j + 1..]));
  }

  lemma ProductFrom<T>(a: seq<seq<T>>, j: nat)
    requires j < |a|
    ensures Product(a[j..]) == |a[j]| * Product(a[j + 1..])
  {
    assert a[j..][1..] == a[j + 1..] && a[j..][0] == a[j];
  }

  lemma Distributes(k: nat, d: nat)
    ensures (k + 1) * d == k * d + d && 0 * d == 0
  {
  }

  /** One turn of the odometer: the next row, or the first again after the last. */
  method Advance<T>(a: seq<seq<T>>, n: array<nat>)
    requires IsTuple(a, n[..])
    modifies n
    ensures IsTuple(a, n[..])
    ensures Value(a, n[..]) == if Value(a, old(n[..])) + 1 < Product(a) then Value(a, old(n[..])) + 1 else 0
  {
    hide Value, Product;
    ghost var before := Value(a, n[..]);
    ExpandInvertsValue(a, n[..]);
    var j := n.Length - 1;
    assert a[n.Length..] == [] && Product<T>([]) == 1 by { NothingIsOne<T>(); }
    while j >= 0
      invariant -1 <= j < n.Length && IsTuple(a, n[..])
      invariant before + 1 == Value(a, n[..]) + Product(a[j + 1..])
    {
      ghost var was := n[..];
      DigitTurns(a, was, j);
      if n[j] + 1 < |a[j]| {
        n[j] := n[j] + 1;
        assert n[..] == was[j := was[j] + 1];
        ExpandInvertsValue(a, n[..]);
        return;
      }
      n[j] := 0;
      assert n[..] == was[j := 0];
      j := j - 1;
    }
    assert a[0..] == a;
    ExpandInvertsValue(a, n[..]);
  }

  // ---------- The product ----------

  /** Row `i` of the product is the tuple whose mixed-radix value is `i`. */
  function Rows<T>(a: seq<seq<T>>): (p: seq<seq<T>>)
    ensures |p| == Product(a)
    ensures forall i :: 0 <= i < |p| ==> IsTuple(a, Expand(a, i)) && p[i] == Pick(a, Expand(a, i))
  {
    forall i | 0 <= i < Product(a) ensures IsTuple(a, Expand(a, i)) {
      ValueInvertsExpand(a, i);
    }
    seq(Product(a), i requires 0 <= i < Product(a) => ValueInvertsExpand(a, i); Pick(a, Expand(a, i)))
  }

  /** Every tuple is picked by one row and no other, and rows are in
      lexicographic order of their tuples. */
  lemma RowsEnumerateTuples<T>(a: seq<seq<T>>, n: seq<nat>, i: nat)
    requires IsTuple(a, n) && i < Product(a)
    ensures Value(a, n) < Product(a) && Rows(a)[Value(a, n)] == Pick(a, n)
    ensures Expand(a, i) == n <==> i == Value(a, n)
    ensures |n| == |Expand(a, i)| && (Before(n, Expand(a, i)) <==> Value(a, n) < i)
  {
    hide Value, Expand, Product, Before;
    ExpandInvertsValue(a, n);
    ValueInvertsExpand(a, i);
    ValueIsLexicographic(a, n, Expand(a, i));
  }

  lemma {:induction false} ProductBack<T>(a: seq<seq<T>>, v: seq<T>)
    ensures Product(a + [v]) == Product(a) * |v|
    decreases |a|
  {
    if a == [] {
      assert ([] + [v])[1..] == [] && Product([v]) == |v| * Product<T>([]);
      assert a + [v] == [v];
    } else {
      assert (a + [v])[1..] == a[1..] + [v];
      ProductBack(a[1..], v);
      Associates(|a[0]|, Product(a[1..]), |v|);
    }
  }

  lemma Associates(x: nat, y: nat, z: nat)
    ensures x * (y * z) == (x * y) * z
  {
  }

  lemma RowStarts(i: nat, k: nat)
    ensures (i + 1) * k == i * k + k
  {
  }

  lemma {:induction false} AllZeros<T>(a: seq<seq<T>>, n: seq<nat>)
    requires |n| == |a| && forall j :: 0 <= j < |n| ==> n[j] == 0
    ensures Value(a, n) == 0
    ensures Product(a) > 0 ==> IsTuple(a, n)
    decreases |a|
  {
    if a != [] {
      AllZeros(a[1..], n[1..]);
      if Product(a) > 0 {
        RestIsNotEmpty(a, 0);
        forall j | 0 <= j < |a| ensures n[j] < |a[j]| {
          if j > 0 { assert a[j] == a[1..][j - 1] && n[j] == n[1..][j - 1]; }
        }
      }
    }
  }

  method CountRows(a: seq<seq<string>>) returns (c: nat)
    ensures c == Product(a)
  {
    hide Product;
    c := 1;
    assert a[..0] == [];
    NothingIsOne<string>();
    for l := 0 to |a|
      invariant c == Product(a[..l])
    {
      assert a[..l + 1] == a[..l] + [a[l]];
      ProductBack(a[..l], a[l]);
      c := c * |a[l]|;
    }
    assert a[..|a|] == a;
  }

  /** Fill one row of the buffer. */
  method WriteRow(a: seq<seq<string>>, n: array<nat>, b: array<string>, s: nat) returns (row: seq<string>)
    requires IsTuple(a, n[..]) && s + |a| <= b.Length
    modifies b
    ensures row == b[s..s + |a|] == Pick(a, n[..])
    ensures b[..s] == old(b[..s])
  {
    ghost var digits := n[..];
    for j := 0 to |a|
      invariant n[..] == digits && b[..s] == old(b[..s])
      invariant forall k :: 0 <= k < j ==> b[s + k] == a[k][digits[k]]
    {
      b[s + j] := a[j][n[j]];
    }
    row := b[s..s + |a|];
    assert row == Pick(a, digits);
  }

  lemma RowFits(i: nat, c: nat, k: nat)
    requires i < c
    ensures i * k + k <= c * k
  {
    assert (i + 1) * k <= c * k;
  }

  /** The rows, written one after another into a shared buffer. */
  method CartesianProduct(a: seq<seq<string>>) returns (p: seq<seq<string>>)
    ensures p == Rows(a)
  {
    hide Product, Value, Expand, Pick;
    var c := CountRows(a);
    if c == 0 { return []; }
    p := [];
    var b := new string[c * |a|](_ => "");
    var n := new nat[|a|](_ => 0);
    var s := 0;
    AllZeros(a, n[..]);
    for i := 0 to c
      invariant IsTuple(a, n[..]) && (i < c ==> Value(a, n[..]) == i)
      invariant s == i * |a| && p == Rows(a)[..i]
    {
      RowStarts(i, |a|);
      RowFits(i, c, |a|);
      var row := WriteRow(a, n, b, s);
      RowsEnumerateTuples(a, n[..], i);
      p := p + [row];
      s := s + |a|;
      Advance(a, n);
    }
  }

  // ---------- The cap ----------

  const LIMIT := 4096

  /** The lists before the first empty one. */
  function BeforeEmpty<T>(v: seq<seq<T>>): seq<seq<T>> {
    if v == [] || v[0] == [] then [] else [v[0]] + BeforeEmpty(v[1..])
  }

  lemma {:induction false} EmptyListEmptiesProduct<T>(v: seq<seq<T>>)
    ensures [] !in v ==> BeforeEmpty(v) == v && Product(v) > 0
    ensures [] in v ==> Product(v) == 0
    decreases |v|
  {
    if v != [] {
      EmptyListEmptiesProduct(v[1..]);
      assert v == [v[0]] + v[1..];
      if [] !in v { assert |v[0]| * Product(v[1..]) > 0; }
    }
  }

  lemma {:induction false} BeforeEmptyFrom<T>(v: seq<seq<T>>, i: nat)
    requires i < |v| && [] !in v[..i]
    ensures v[i] == [] ==> BeforeEmpty(v) == v[..i]
    ensures v[i] != [] ==> v[..i + 1] <= BeforeEmpty(v) && [] !in BeforeEmpty(v)
    decreases i
  {
    if i == 0 {
      if v[0] != [] { NoEmptyBefore(v); }
    } else {
      assert v[..i][0] == v[0] && v[..i][1..] == v[1..][..i - 1];
      BeforeEmptyFrom(v[1..], i - 1);
      assert v[..i + 1] == [v[0]] + v[1..][..i];
      NoEmptyBefore(v);
    }
  }

  lemma {:induction false} NoEmptyBefore<T>(v: seq<seq<T>>)
    ensures [] !in BeforeEmpty(v)
    decreases |v|
  {
    if v != [] && v[0] != [] { NoEmptyBefore(v[1..]); }
  }

  lemma {:induction false} ProductGrows<T>(u: seq<seq<T>>, v: seq<seq<T>>)
    requires u <= v && [] !in v
    ensures Product(u) <= Product(v)
    decreases |u|
  {
    EmptyListEmptiesProduct(v);
    if u != [] {
      assert u[1..] <= v[1..];
      ProductGrows(u[1..], v[1..]);
      TimesGrows(|u[0]|, Product(u[1..]), Product(v[1..]));
    }
  }

  lemma TimesGrows(k: nat, x: nat, y: nat)
    requires x <= y
    ensures k * x <= k * y
  {
  }

  lemma DivisionGuard(x: nat, k: nat, cap: nat)
    requires k > 0
    ensures x > cap / k <==> x * k > cap
  {
    var q := cap / k;
    assert cap == q * k + cap % k;
    if x > q { assert x * k >= (q + 1) * k == q * k + k; } else { assert x * k <= q * k; }
  }

  /** The size of an expansion, refused without computing a product beyond the
      limit: exactly when the lists before the first empty one exceed it. */
  method ExpansionCount(values: seq<seq<string>>) returns (r: Option<nat>)
    ensures r.None? <==> Product(BeforeEmpty(values)) > 4096
    ensures r.Some? ==> r.value == Product(values) <= 4096
  {
    hide Product, BeforeEmpty;
    var expCount := 1;
    assert values[..0] == [];
    NothingIsOne<string>();
    var i := 0;
    while i < |values|
      invariant i <= |values| && [] !in values[..i]
      invariant expCount == Product(values[..i]) <= LIMIT
    {
      var v := values[i];
      BeforeEmptyFrom(values, i);
      if |v| == 0 {
        EmptyListEmptiesProduct(values);
        return Some(0);
      }
      DivisionGuard(expCount, |v|, LIMIT);
      assert values[..i + 1] == values[..i] + [v];
      ProductBack(values[..i], v);
      if expCount > LIMIT / |v| {
        ProductGrows(values[..i + 1], BeforeEmpty(values));
        return None;
      }
      expCount := expCount * |v|;
      i := i + 1;
    }
    assert values[..|values|] == values;
    EmptyListEmptiesProduct(values);
    r := Some(expCount);
  }

  // ---------- The values of a template ----------

  /** What a template token stands for: a fixed value such as the user's name, all
      values of a tag of the user or of the account, or nothing that is defined. */
  datatype Op = Fixed(value: string) | Tag(prefix: string, ofAccount: bool) | Unknown

  datatype Token = Token(src: string, op: Op)

  /** A subject with its template tokens, in order. */
  datatype Item = Item(subject: string, tokens: seq<Token>)

  /** The tags, how text is replaced, which subjects are valid, and whether a
      missing tag or an invalid subject is an error. */
  datatype Rules = Rules(tags: seq<string>, accountTags: seq<string>,
                         replace: (string, string, string) -> string, valid: string -> bool, strict: bool)

  /** The values of the tags with a prefix. */
  function Matching(tags: seq<string>, prefix: string): seq<string> {
    if tags == [] then []
    else (if prefix <= tags[0] then [tags[0][|prefix|..]] else []) + Matching(tags[1..], prefix)
  }

  /** The values of a token. A tag without values stands for one that makes the
      subject invalid, unless that is an error. */
  function Values(rules: Rules, op: Op): Option<seq<string>> {
    match op
    case Fixed(v) => Some([v])
    case Tag(prefix, ofAccount) =>
      var found := Matching(if ofAccount then rules.accountTags else rules.tags, prefix);
      if found != [] then Some(found) else if rules.strict then None else Some([" "])
    case Unknown => None
  }

  /** The tags of the prefix give their values, without the prefix and in their order. */
  lemma {:induction false} MatchingIs(tags: seq<string>, prefix: string, v: string)
    ensures v in Matching(tags, prefix) <==> prefix + v in tags
    ensures |Matching(tags, prefix)| <= |tags|
    decreases |tags|
  {
    if tags != [] {
      MatchingIs(tags[1..], prefix, v);
      var t := tags[0];
      if prefix <= t { assert t == prefix + t[|prefix|..]; }
      assert tags == [t] + tags[1..];
      if t == prefix + v { assert t[|prefix|..] == v; }
    }
  }

  /** A tag stands for all values of the tags of that prefix, the user's or the account's;
      without any it is an error where it must be valid, and otherwise a value that no
      subject holds. */
  lemma TagValues(rules: Rules, prefix: string, ofAccount: bool, v: string)
    ensures var tags := if ofAccount then rules.accountTags else rules.tags;
            var values := Values(rules, Tag(prefix, ofAccount));
            var none := forall x :: x in tags ==> !(prefix <= x);
            && (values.None? <==> none && rules.strict)
            && (values.Some? && !none ==> (v in values.value <==> prefix + v in tags))
            && (none && !rules.strict ==> values == Some([" "]))
  {
    var tags := if ofAccount then rules.accountTags else rules.tags;
    MatchingIs(tags, prefix, v);
    var found := Matching(tags, prefix);
    if x :| x in tags && prefix <= x {
      MatchingIs(tags, prefix, x[|prefix|..]);
      assert x == prefix + x[|prefix|..];
    }
    if found != [] {
      MatchingIs(tags, prefix, found[0]);
      assert found[0] in found && prefix <= prefix + found[0];
    }
  }

  predicate HasTags(it: Item) { exists j :: 0 <= j < |it.tokens| && it.tokens[j].op.Tag? }

  function Sources(it: Item): (r: seq<string>)
    ensures |r| == |it.tokens|
  {
    seq(|it.tokens|, j requires 0 <= j < |it.tokens| => it.tokens[j].src)
  }

  predicate Defined(rules: Rules, it: Item) { forall j :: 0 <= j < |it.tokens| ==> Values(rules, it.tokens[j].op).Some? }

  function AllValues(rules: Rules, it: Item): (r: seq<seq<string>>)
    requires Defined(rules, it)
    ensures |r| == |it.tokens|
  {
    seq(|it.tokens|, j requires 0 <= j < |it.tokens| => Values(rules, it.tokens[j].op).value)
  }

  /** Every token of a defined template has a value, and just one when it is no
      tag, so that the guard refuses exactly the products beyond the limit. */
  lemma GuardIsExact(rules: Rules, it: Item)
    requires Defined(rules, it)
    ensures [] !in AllValues(rules, it)
    ensures BeforeEmpty(AllValues(rules, it)) == AllValues(rules, it) && Product(AllValues(rules, it)) > 0
    ensures !HasTags(it) ==> forall j :: 0 <= j < |it.tokens| ==> |AllValues(rules, it)[j]| == 1
  {
    forall v | v in AllValues(rules, it) ensures v != [] {
      var j :| 0 <= j < |it.tokens| && AllValues(rules, it)[j] == v;
    }
    EmptyListEmptiesProduct(AllValues(rules, it));
  }

  // ---------- Whole permission lists ----------

  datatype Outcome = Emit(subjects: seq<string>) | BadTemplate | BadSubject | OverLimit

  function Fill(rules: Rules, subj: string, srcs: seq<string>, row: seq<string>): string
    requires |srcs| == |row|
    decreases |srcs|
  {
    if srcs == [] then subj else Fill(rules, rules.replace(subj, srcs[0], row[0]), srcs[1..], row[1..])
  }

  function Fills(rules: Rules, it: Item, rows: seq<seq<string>>): (r: seq<string>)
    requires forall row :: row in rows ==> |row| == |it.tokens|
    ensures |r| == |rows|
  {
    seq(|rows|, i requires 0 <= i < |rows| => Fill(rules, it.subject, Sources(it), rows[i]))
  }

  /** Every subject a template stands for. */
  function Generated(rules: Rules, it: Item): (r: seq<string>)
    requires Defined(rules, it)
    ensures |r| == Product(AllValues(rules, it))
  {
    Fills(rules, it, Rows(AllValues(rules, it)))
  }

  function Kept(valid: string -> bool, ss: seq<string>): (r: seq<string>)
    ensures |r| <= |ss| && forall x :: x in r <==> x in ss && valid(x)
    decreases |ss|
  {
    if ss == [] then []
    else Kept(valid, ss[..|ss| - 1]) + if valid(ss[|ss| - 1]) then [ss[|ss| - 1]] else []
  }

  /** What a list of templates stands for: the valid subjects of each, in order. */
  function Emitted(rules: Rules, list: seq<Item>): seq<string>
    decreases |list|
  {
    if list == [] then []
    else
      var it := list[|list| - 1];
      Emitted(rules, list[..|list| - 1]) + if Defined(rules, it) then Kept(rules.valid, Generated(rules, it)) else []
  }

  /** What is kept are the valid subjects, each as often and in the order it was given. */
  lemma {:induction false} KeptInOrder(valid: string -> bool, a: seq<string>, b: seq<string>, x: string)
    ensures Kept(valid, a + b) == Kept(valid, a) + Kept(valid, b)
    ensures Kept(valid, [x]) == if valid(x) then [x] else []
    decreases |b|
  {
    assert [x][..0] == [];
    if b == [] {
      assert a + b == a;
    } else {
      assert (a + b)[..|a + b| - 1] == a + b[..|b| - 1] && (a + b)[|a + b| - 1] == b[|b| - 1];
      KeptInOrder(valid, a, b[..|b| - 1], x);
    }
  }

  /** Lists are expanded one template after the other. */
  lemma {:induction false} EmittedInOrder(rules: Rules, a: seq<Item>, b: seq<Item>)
    ensures Emitted(rules, a + b) == Emitted(rules, a) + Emitted(rules, b)
    decreases |b|
  {
    hide Defined, Generated, Kept;
    if b == [] {
      assert a + b == a;
    } else {
      assert (a + b)[..|a + b| - 1] == a + b[..|b| - 1] && (a + b)[|a + b| - 1] == b[|b| - 1];
      EmittedInOrder(rules, a, b[..|b| - 1]);
    }
  }

  /** A tagged template fits if its size and the subjects emitted before it stay
      within the limit together. */
  predicate Fits(rules: Rules, it: Item, before: nat)
    requires Defined(rules, it)
  {
    HasTags(it) ==> before + Product(AllValues(rules, it)) <= LIMIT
  }

  predicate AllValid(rules: Rules, it: Item)
    requires Defined(rules, it)
  {
    forall x :: x in Generated(rules, it) ==> rules.valid(x)
  }

  predicate Sound(rules: Rules, it: Item) {
    Defined(rules, it) && (rules.strict ==> AllValid(rules, it))
  }

  predicate Accepted(rules: Rules, list: seq<Item>)
    decreases |list|
  {
    list == [] || (
      && Accepted(rules, list[..|list| - 1])
      && Sound(rules, list[|list| - 1])
      && Fits(rules, list[|list| - 1], |Emitted(rules, list[..|list| - 1])|))
  }

  predicate HasTemplates(list: seq<Item>) { exists i :: 0 <= i < |list| && list[i].tokens != [] }

  function Subjects(list: seq<Item>): seq<string> {
    seq(|list|, i requires 0 <= i < |list| => list[i].subject)
  }

  /** Right after a tagged template, no more than the limit has been emitted. */
  lemma TaggedWithinLimit(rules: Rules, list: seq<Item>)
    requires Accepted(rules, list) && list != [] && HasTags(list[|list| - 1])
    ensures |Emitted(rules, list)| <= 4096
  {
    hide HasTags, Defined, AllValues, Product;
  }

  predicate NoTags(list: seq<Item>) { forall i :: 0 <= i < |list| ==> !HasTags(list[i]) }

  lemma {:induction false} SingletonProduct(v: seq<seq<string>>)
    requires forall j :: 0 <= j < |v| ==> |v[j]| == 1
    ensures Product(v) == 1
    decreases |v|
  {
    if v != [] { SingletonProduct(v[1..]); }
  }

  lemma UntaggedKeepsOne(rules: Rules, it: Item)
    requires Defined(rules, it) && !HasTags(it) && AllValid(rules, it)
    ensures |Kept(rules.valid, Generated(rules, it))| == 1
  {
    GuardIsExact(rules, it);
    SingletonProduct(AllValues(rules, it));
    KeptAll(rules.valid, Generated(rules, it));
  }

  /** Subjects without tags are never refused for their number: beyond the last
      tagged template the list grows by one for each valid one. */
  lemma {:induction false} UntaggedIsUncapped(rules: Rules, list: seq<Item>, rest: seq<Item>)
    requires Accepted(rules, list) && NoTags(rest)
    requires forall i :: 0 <= i < |rest| ==> Defined(rules, rest[i]) && AllValid(rules, rest[i])
    ensures Accepted(rules, list + rest) && |Emitted(rules, list + rest)| == |Emitted(rules, list)| + |rest|
    decreases |rest|
  {
    hide Accepted, Emitted, HasTags, Defined, AllValid;
    if rest == [] {
      assert list + rest == list;
    } else {
      var front, last := rest[..|rest| - 1], rest[|rest| - 1];
      assert list + rest == (list + front) + [last];
      UntaggedIsUncapped(rules, list, front);
      UntaggedGrows(rules, list + front, last);
    }
  }

  lemma UntaggedGrows(rules: Rules, list: seq<Item>, it: Item)
    requires Accepted(rules, list) && Defined(rules, it) && !HasTags(it) && AllValid(rules, it)
    ensures Accepted(rules, list + [it]) && |Emitted(rules, list + [it])| == |Emitted(rules, list)| + 1
  {
    hide Product, Generated, Kept, AllValid, Defined, HasTags;
    assert (list + [it])[..|list|] == list;
    UntaggedKeepsOne(rules, it);
  }

  lemma {:induction false} KeptAll(valid: string -> bool, ss: seq<string>)
    requires forall x :: x in ss ==> valid(x)
    ensures Kept(valid, ss) == ss
    decreases |ss|
  {
    if ss != [] { KeptAll(valid, ss[..|ss| - 1]); }
  }

  lemma KeptNone(valid: string -> bool)
    ensures Kept(valid, []) == []
  {
  }

  lemma KeptNext(valid: string -> bool, ss: seq<string>, i: nat)
    requires i < |ss|
    ensures Kept(valid, ss[..i + 1]) == Kept(valid, ss[..i]) + if valid(ss[i]) then [ss[i]] else []
  {
    assert ss[..i + 1][..i] == ss[..i];
  }

  // ---------- The loops over a list ----------

  /** The tokens' values, or nothing when one is not defined, and whether one is a tag. */
  method Resolve(rules: Rules, it: Item) returns (values: Option<seq<seq<string>>>, hasTags: bool)
    ensures values.Some? <==> Defined(rules, it)
    ensures values.Some? ==> values.value == AllValues(rules, it) && hasTags == HasTags(it)
  {
    hide Values;
    var vs := [];
    hasTags := false;
    for j := 0 to |it.tokens|
      invariant |vs| == j && forall k :: 0 <= k < j ==> Values(rules, it.tokens[k].op) == Some(vs[k])
      invariant hasTags <==> exists k :: 0 <= k < j && it.tokens[k].op.Tag?
    {
      var v := Values(rules, it.tokens[j].op);
      if v.None? { return None, hasTags; }
      vs := vs + [v.value];
      hasTags := hasTags || it.tokens[j].op.Tag?;
    }
    values := Some(vs);
    assert vs == AllValues(rules, it);
  }

  method FillRow(rules: Rules, subject: string, srcs: seq<string>, row: seq<string>) returns (subj: string)
    requires |srcs| == |row|
    ensures subj == Fill(rules, subject, srcs, row)
  {
    subj := subject;
    for j := 0 to |srcs|
      invariant Fill(rules, subject, srcs, row) == Fill(rules, subj, srcs[j..], row[j..])
    {
      subj := rules.replace(subj, srcs[j], row[j]);
    }
  }

  /** Add the valid subjects of some rows, or stop at the first invalid one in
      strict mode. */
  method AppendRows(rules: Rules, it: Item, rows: seq<seq<string>>, emitted: seq<string>) returns (r: Outcome)
    requires forall row :: row in rows ==> |row| == |it.tokens|
    ensures r.Emit? || r.BadSubject?
    ensures r.Emit? <==> (rules.strict ==> forall x :: x in Fills(rules, it, rows) ==> rules.valid(x))
    ensures r.Emit? ==> r.subjects == emitted + Kept(rules.valid, Fills(rules, it, rows))
  {
    hide Fill, Kept;
    ghost var all := Fills(rules, it, rows);
    var out := emitted;
    KeptNone(rules.valid);
    assert all[..0] == [];
    for i := 0 to |rows|
      invariant out == emitted + Kept(rules.valid, all[..i])
      invariant rules.strict ==> forall k :: 0 <= k < i ==> rules.valid(all[k])
    {
      var subj := FillRow(rules, it.subject, Sources(it), rows[i]);
      assert subj == all[i] && subj in all;
      KeptNext(rules.valid, all, i);
      if rules.valid(subj) {
        out := out + [subj];
      } else if rules.strict {
        return BadSubject;
      }
    }
    assert all[..|rows|] == all;
    r := Emit(out);
  }

  /** One template: the outcome is an error exactly when it is not acceptable. */
  method ApplyOne(rules: Rules, it: Item, emitted: seq<string>) returns (r: Outcome)
    ensures r.Emit? <==> Sound(rules, it) && Fits(rules, it, |emitted|)
    ensures r.Emit? ==> r.subjects == emitted + Kept(rules.valid, Generated(rules, it))
    ensures r.BadTemplate? <==> !Defined(rules, it)
    ensures r.OverLimit? <==> Defined(rules, it) && !Fits(rules, it, |emitted|)
  {
    hide Product, BeforeEmpty, Fills, Defined, HasTags, AllValues;
    var values, hasTags := Resolve(rules, it);
    if values.None? { return BadTemplate; }
    GuardIsExact(rules, it);
    var rows;
    if !hasTags {
      SingletonProduct(values.value);
      var first := seq(|values.value|, j requires 0 <= j < |values.value| => values.value[j][0]);
      FirstRow(values.value, first);
      rows := [first];
      assert rows == Rows(values.value);
    } else {
      var count := ExpansionCount(values.value);
      if count.None? || |emitted| > LIMIT - count.value { return OverLimit; }
      rows := CartesianProduct(values.value);
    }
    r := AppendRows(rules, it, rows, emitted);
  }

  lemma FirstRow(v: seq<seq<string>>, first: seq<string>)
    requires (forall j :: 0 <= j < |v| ==> |v[j]| == 1) && |first| == |v|
    requires forall j :: 0 <= j < |v| ==> first[j] == v[j][0]
    ensures Product(v) == 1 && Rows(v)[0] == first
  {
    SingletonProduct(v);
    var row := Rows(v)[0];
    assert row == Pick(v, Expand(v, 0));
  }

  /** A list without templates is returned as it is. Any other is expanded, in
      order and within the limit, or refused; the outcome is a list exactly when
      every template is acceptable in its place. */
  method ApplyTemplate(rules: Rules, list: seq<Item>) returns (r: Outcome)
    ensures !HasTemplates(list) ==> r == Emit(Subjects(list))
    ensures HasTemplates(list) ==> (r.Emit? <==> Accepted(rules, list))
    ensures HasTemplates(list) && r.Emit? ==> r.subjects == Emitted(rules, list)
  {
    hide Product, BeforeEmpty, Generated, Sound, Fits, Kept, Defined;
    var found := false;
    for i := 0 to |list|
      invariant found <==> exists k :: 0 <= k < i && list[k].tokens != []
    {
      if list[i].tokens != [] { found := true; }
    }
    if !found { return Emit(Subjects(list)); }
    var emitted := [];
    for i := 0 to |list|
      invariant Accepted(rules, list[..i]) && emitted == Emitted(rules, list[..i])
    {
      assert list[..i + 1][..i] == list[..i];
      r := ApplyOne(rules, list[i], emitted);
      if !r.Emit? {
        RefusedFrom(rules, list, i + 1);
        return;
      }
      emitted := r.subjects;
    }
    assert list[..|list|] == list;
    r := Emit(emitted);
  }

  lemma {:induction false} RefusedFrom(rules: Rules, list: seq<Item>, i: nat)
    requires i <= |list| && !Accepted(rules, list[..i])
    ensures !Accepted(rules, list)
    decreases |list|
  {
    if i == |list| {
      assert list[..i] == list;
    } else {
      assert list[..|list| - 1][..i] == list[..i];
      RefusedFrom(rules, list[..|list| - 1], i);
    }
  }
}
