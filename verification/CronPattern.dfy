/** Cron patterns: six fields, each a list of ranges with steps. A field denotes
    the set of values it admits, with 63 for the star bit. */
module CronPattern {
  import opened Ascii
  import opened Calendar
  import opened CronSearch
  import opened Int64
  import opened Optional
  import opened Splitting

  /** Smallest and largest value of a field, and names for values. */
  datatype Bounds = Bounds(min: nat, max: nat, names: map<string, nat>)

  const SECONDS := Bounds(0, 59, map[])
  const MINUTES := Bounds(0, 59, map[])
  const HOURS := Bounds(0, 23, map[])
  const DAYS := Bounds(1, 31, map[])
  const MONTHS := Bounds(1, 12, map["jan" := 1, "feb" := 2, "mar" := 3, "apr" := 4, "may" := 5, "jun" := 6,
                                    "jul" := 7, "aug" := 8, "sep" := 9, "oct" := 10, "nov" := 11, "dec" := 12])
  const WEEKDAYS := Bounds(0, 6, map["sun" := 0, "mon" := 1, "tue" := 2, "wed" := 3, "thu" := 4, "fri" := 5, "sat" := 6])

  // ---------- Text ----------

  /** The pieces that are not empty. */
  function NotEmpty(pieces: seq<string>): seq<string> {
    if pieces == [] then [] else (if pieces[0] == "" then [] else [pieces[0]]) + NotEmpty(pieces[1..])
  }

  const Slash := Is('/')
  const Hyphen := Is('-')
  const Comma := Is(',')
  const Space: char -> bool := c => c == ' ' || '\t' <= c <= '\r'

  function ParseNumber(s: string): Option<nat> {
    match ParseInt64(s)
    case Int(n) => if n < 0 then None else Some(n)
    case NotInt => None
  }

  function ParseIntOrName(s: string, names: map<string, nat>): Option<nat> {
    if Lower(s) in names then Some(names[Lower(s)]) else ParseNumber(s)
  }

  // ---------- Ranges ----------

  function Step(lo: int, step: nat, k: nat): int { lo + k * step }

  /** The values from `lo` to `hi` in steps. */
  function Steps(lo: int, hi: int, step: nat): set<int>
    requires step > 0
    decreases hi - lo
  {
    if lo > hi then {} else {lo} + Steps(lo + step, hi, step)
  }

  lemma {:induction false} StepsReach(lo: int, hi: int, step: nat, k: nat)
    requires step > 0 && Step(lo, step, k) <= hi
    ensures Step(lo, step, k) in Steps(lo, hi, step)
    decreases k
  {
    Spread(lo, step, k);
    if k > 0 { StepsReach(lo + step, hi, step, k - 1); }
  }

  lemma Spread(lo: int, step: nat, k: nat)
    ensures lo <= Step(lo, step, k)
    ensures k > 0 ==> Step(lo, step, k) == Step(lo + step, step, k - 1)
    ensures Step(lo, step, 0) == lo && Step(lo + step, step, k) == Step(lo, step, k + 1)
  {
  }

  lemma {:induction false} StepsOnly(lo: int, hi: int, step: nat, i: int) returns (k: nat)
    requires step > 0 && i in Steps(lo, hi, step)
    ensures i == Step(lo, step, k) <= hi
    decreases hi - lo
  {
    if i == lo {
      k := 0;
    } else {
      var j := StepsOnly(lo + step, hi, step, i);
      Spread(lo, step, j);
      k := j + 1;
    }
  }

  /** All values from `lo` to `hi`: what the two shifted masks have in common. */
  function Between(lo: int, hi: int): (r: set<int>)
    ensures forall i :: i in r <==> lo <= i <= hi
    decreases hi - lo
  {
    if lo > hi then {} else {hi} + Between(lo, hi - 1)
  }

  lemma StepsOfOne(lo: int, hi: int)
    ensures Steps(lo, hi, 1) == Between(lo, hi)
  {
    forall i ensures i in Steps(lo, hi, 1) <==> i in Between(lo, hi) {
      if i in Steps(lo, hi, 1) { var k := StepsOnly(lo, hi, 1, i); }
      if lo <= i <= hi { StepsReach(lo, hi, 1, i - lo); }
    }
  }

  /** The bits of a range: whole by shifts, or one by one. */
  method GetBits(lo: nat, hi: nat, step: nat) returns (bits: set<int>)
    requires step > 0
    ensures bits == Steps(lo, hi, step)
  {
    if step == 1 {
      StepsOfOne(lo, hi);
      return Between(lo, hi);
    }
    bits := {};
    var i := lo;
    while i <= hi
      invariant bits + Steps(i, hi, step) == Steps(lo, hi, step)
      decreases hi - i
    {
      bits := bits + {i};
      i := i + step;
    }
  }

  predicate IsStar(s: string) { s == "*" || s == "?" }

  /** The ends of `low` or `low-high`. After a star anything may follow. */
  function Ends(parts: seq<string>, b: Bounds): Option<(nat, nat)>
    requires parts != []
  {
    if IsStar(parts[0]) then Some((b.min, b.max))
    else
      var low := ParseIntOrName(parts[0], b.names);
      var high := if |parts| == 1 then low else if |parts| == 2 then ParseIntOrName(parts[1], b.names) else None;
      if low.None? || high.None? then None else Some((low.value, high.value))
  }

  function StepOf(parts: seq<string>): Option<nat> {
    if |parts| == 1 then Some(1) else if |parts| == 2 then ParseNumber(parts[1]) else None
  }

  /** A range. With a step, a single number stands for all from it on, and a
      step above one takes the star away. */
  function ParseRange(expr: string, b: Bounds): Option<set<int>> {
    var rangeAndStep := Split(expr, Slash);
    var lowAndHigh := Split(rangeAndStep[0], Hyphen);
    var ends, step := Ends(lowAndHigh, b), StepOf(rangeAndStep);
    if ends.None? || step.None? then None
    else
      var start := ends.value.0;
      var end := if |rangeAndStep| == 2 && |lowAndHigh| == 1 then b.max else ends.value.1;
      if start < b.min || end > b.max || start > end || step.value == 0 then None
      else Some(Steps(start, end, step.value) + if IsStar(lowAndHigh[0]) && step.value <= 1 then {STAR} else {})
  }

  function ParseAll(exprs: seq<string>, b: Bounds): Option<set<int>> {
    if exprs == [] then Some({})
    else
      var first, rest := ParseRange(exprs[0], b), ParseAll(exprs[1..], b);
      if first.None? || rest.None? then None else Some(first.value + rest.value)
  }

  /** A field is a list of ranges between commas. */
  function ParseField(field: string, b: Bounds): Option<set<int>> {
    ParseAll(NotEmpty(Split(field, Comma)), b)
  }

  method GetRange(expr: string, b: Bounds) returns (r: Option<set<int>>)
    ensures r == ParseRange(expr, b)
  {
    var rangeAndStep := Split(expr, Slash);
    var lowAndHigh := Split(rangeAndStep[0], Hyphen);
    var start, end, extra := b.min, b.max, {STAR};
    if !IsStar(lowAndHigh[0]) {
      extra := {};
      var low := ParseIntOrName(lowAndHigh[0], b.names);
      if low.None? || |lowAndHigh| > 2 { return None; }
      start, end := low.value, low.value;
      if |lowAndHigh| == 2 {
        var high := ParseIntOrName(lowAndHigh[1], b.names);
        if high.None? { return None; }
        end := high.value;
      }
    }
    if |rangeAndStep| > 2 { return None; }
    var step := 1;
    if |rangeAndStep| == 2 {
      var n := ParseNumber(rangeAndStep[1]);
      if n.None? { return None; }
      step := n.value;
      if |lowAndHigh| == 1 { end := b.max; }
      if step > 1 { extra := {}; }
    }
    if start < b.min || end > b.max || start > end || step == 0 { return None; }
    var bits := GetBits(start, end, step);
    r := Some(bits + extra);
  }

  method GetField(field: string, b: Bounds) returns (r: Option<set<int>>)
    ensures r == ParseField(field, b)
  {
    hide ParseRange;
    var ranges := NotEmpty(Split(field, Comma));
    var bits := {};
    var i := 0;
    while i < |ranges|
      invariant i <= |ranges|
      invariant ParseAll(ranges, b).Some? <==> ParseAll(ranges[i..], b).Some?
      invariant ParseAll(ranges, b).Some? ==> ParseAll(ranges, b).value == bits + ParseAll(ranges[i..], b).value
    {
      var bit := GetRange(ranges[i], b);
      if bit.None? { return None; }
      bits := bits + bit.value;
      i := i + 1;
    }
    r := Some(bits);
  }

  /** The schedule of a pattern of six fields. */
  function ParsePattern(pattern: string): Option<Schedule> {
    var fields := NotEmpty(Split(pattern, Space));
    if |fields| != 6 then None
    else
      var second, minute, hour := ParseField(fields[0], SECONDS), ParseField(fields[1], MINUTES), ParseField(fields[2], HOURS);
      var day, month, weekday := ParseField(fields[3], DAYS), ParseField(fields[4], MONTHS), ParseField(fields[5], WEEKDAYS);
      if second.None? || minute.None? || hour.None? || day.None? || month.None? || weekday.None? then None
      else Some(Schedule(second.value, minute.value, hour.value, day.value, month.value, weekday.value))
  }

  // ---------- What a pattern stands for ----------

  /** A number, or the name of one in upper or lower case. */
  datatype Atom = Plain(n: nat) | Word(name: string)

  datatype Base = Any(question: bool) | One(at: Atom) | Span(lo: Atom, hi: Atom)

  /** A range as an expression: its ends, and a step if there is one. */
  datatype Term = Term(base: Base, step: Option<nat>)

  predicate IsLetter(c: char) { 'a' <= c <= 'z' || 'A' <= c <= 'Z' }

  predicate Spelled(a: Atom) { a.Word? ==> a.name != "" && forall i :: 0 <= i < |a.name| ==> IsLetter(a.name[i]) }

  /** Words are made of letters. */
  predicate WellSpelled(t: Term) {
    match t.base case Any(_) => true case One(a) => Spelled(a) case Span(lo, hi) => Spelled(lo) && Spelled(hi)
  }

  function Meaning(a: Atom, b: Bounds): Option<nat> {
    match a
    case Plain(n) => Some(n)
    case Word(w) => if Lower(w) in b.names then Some(b.names[Lower(w)]) else None
  }

  predicate Known(t: Term, b: Bounds) {
    match t.base
    case Any(_) => true
    case One(a) => Meaning(a, b).Some?
    case Span(lo, hi) => Meaning(lo, b).Some? && Meaning(hi, b).Some?
  }

  function First(t: Term, b: Bounds): nat
    requires Known(t, b)
  {
    match t.base case Any(_) => b.min case One(a) => Meaning(a, b).value case Span(lo, _) => Meaning(lo, b).value
  }

  function Last(t: Term, b: Bounds): nat
    requires Known(t, b)
  {
    match t.base
    case Any(_) => b.max
    case One(a) => if t.step.None? then Meaning(a, b).value else b.max
    case Span(_, hi) => Meaning(hi, b).value
  }

  function StepSize(t: Term): nat { if t.step.None? then 1 else t.step.value }

  predicate Legal(t: Term, b: Bounds) {
    Known(t, b) && b.min <= First(t, b) <= Last(t, b) <= b.max && 1 <= StepSize(t) <= MAX_INT64
  }

  /** The values a term admits: a value between its ends that lies on a step, and
      the star for a term that admits every value of the field. */
  ghost predicate Admits(t: Term, b: Bounds, i: int)
    requires Known(t, b)
  {
    || (exists k: nat :: i == Step(First(t, b), StepSize(t), k) <= Last(t, b))
    || (i == STAR && t.base.Any? && StepSize(t) <= 1)
  }

  function RenderAtom(a: Atom): string {
    match a case Plain(n) => NatNumeral(n) case Word(w) => w
  }

  function RenderBase(base: Base): string {
    match base
    case Any(question) => if question then "?" else "*"
    case One(a) => RenderAtom(a)
    case Span(lo, hi) => RenderAtom(lo) + ("-" + RenderAtom(hi))
  }

  function RenderTerm(t: Term): string {
    if t.step.None? then RenderBase(t.base) else RenderBase(t.base) + ("/" + NatNumeral(t.step.value))
  }

  /** No name is a numeral and values fit, so that numerals read as numbers. */
  predicate NamesAreWords(b: Bounds) { forall k :: k in b.names ==> !AllDigits(k) && b.names[k] <= MAX_INT64 }

  lemma NumeralIsRead(n: nat, b: Bounds)
    requires NamesAreWords(b)
    ensures ParseNumber(NatNumeral(n)) == if n <= MAX_INT64 then Some(n) else None
    ensures ParseIntOrName(NatNumeral(n), b.names) == ParseNumber(NatNumeral(n))
    ensures !IsStar(NatNumeral(n)) && Free(NatNumeral(n), Slash) && Free(NatNumeral(n), Hyphen)
  {
    hide NatNumeral, ValueOf;
    var s := NatNumeral(n);
    NumeralReads(n);
    assert IsDigit(s[0]);
    assert Lower(s) == s;
  }

  /** A number or name reads as what it means. */
  lemma AtomIsRead(a: Atom, b: Bounds)
    requires NamesAreWords(b) && Spelled(a)
    ensures ParseIntOrName(RenderAtom(a), b.names)
            == if Meaning(a, b).Some? && Meaning(a, b).value <= MAX_INT64 then Meaning(a, b) else None
    ensures !IsStar(RenderAtom(a)) && Free(RenderAtom(a), Slash) && Free(RenderAtom(a), Hyphen)
  {
    hide NatNumeral;
    match a
    case Plain(n) => NumeralIsRead(n, b);
    case Word(w) => assert IsLetter(w[0]) && IsLetter(w[|w| - 1]);
  }

  function InRange(v: Option<nat>): Option<nat> {
    if v.Some? && v.value <= MAX_INT64 then v else None
  }

  /** The ends that a base means, if its numbers fit. */
  function EndsOf(base: Base, b: Bounds): Option<(nat, nat)> {
    match base
    case Any(_) => Some((b.min, b.max))
    case One(a) => (match InRange(Meaning(a, b)) case Some(n) => Some((n, n)) case None => None)
    case Span(lo, hi) =>
      (match (InRange(Meaning(lo, b)), InRange(Meaning(hi, b))) case (Some(x), Some(y)) => Some((x, y)) case _ => None)
  }

  /** What the text of a base splits into, and the ends it gives. */
  lemma BaseIsRead(t: Term, b: Bounds)
    requires NamesAreWords(b) && WellSpelled(t)
    ensures Free(RenderBase(t.base), Slash)
    ensures var parts := Split(RenderBase(t.base), Hyphen);
            && (|parts| == 1 <==> !t.base.Span?) && (IsStar(parts[0]) <==> t.base.Any?)
            && Ends(parts, b) == EndsOf(t.base, b)
  {
    hide RenderAtom, ParseNumber, ParseIntOrName, Spelled, Meaning;
    match t.base
    case Any(question) => SplitOne(if question then "?" else "*", Hyphen);
    case One(a) =>
      AtomIsRead(a, b);
      SplitOne(RenderAtom(a), Hyphen);
    case Span(lo, hi) =>
      AtomIsRead(lo, b);
      AtomIsRead(hi, b);
      SplitMore(RenderAtom(lo), '-', RenderAtom(hi), Hyphen);
      SplitOne(RenderAtom(hi), Hyphen);
  }

  lemma StepIsRead(t: Term, b: Bounds)
    requires NamesAreWords(b) && WellSpelled(t)
    ensures var parts := Split(RenderTerm(t), Slash);
            && parts[0] == RenderBase(t.base) && |parts| == (if t.step.None? then 1 else 2)
            && StepOf(parts) == if StepSize(t) <= MAX_INT64 then Some(StepSize(t)) else None
  {
    hide NatNumeral, ParseNumber, ParseIntOrName, RenderBase, WellSpelled;
    BaseIsRead(t, b);
    if t.step.None? {
      SplitOne(RenderBase(t.base), Slash);
    } else {
      NumeralIsRead(t.step.value, b);
      SplitMore(RenderBase(t.base), '/', NatNumeral(t.step.value), Slash);
      SplitOne(NatNumeral(t.step.value), Slash);
    }
  }

  /** The text of a term is accepted exactly when the term is legal, and then
      denotes exactly the values it admits. */
  lemma TermRoundTrip(t: Term, b: Bounds)
    requires NamesAreWords(b) && b.max <= MAX_INT64 && WellSpelled(t)
    ensures ParseRange(RenderTerm(t), b).Some? <==> Legal(t, b)
    ensures Legal(t, b) ==> Known(t, b) && forall i :: i in ParseRange(RenderTerm(t), b).value <==> Admits(t, b, i)
  {
    StepIsRead(t, b);
    BaseIsRead(t, b);
    hide Split, RenderBase, RenderTerm, Ends, StepOf, Steps, Step, WellSpelled;
    if Legal(t, b) {
      var r := ParseRange(RenderTerm(t), b).value;
      forall i ensures i in r <==> Admits(t, b, i) { TermDenotes(t, b, i); }
    }
  }

  lemma TermDenotes(t: Term, b: Bounds, i: int)
    requires Legal(t, b)
    ensures i in Steps(First(t, b), Last(t, b), StepSize(t)) + (if t.base.Any? && StepSize(t) <= 1 then {STAR} else {})
            <==> Admits(t, b, i)
  {
    var lo, hi, step := First(t, b), Last(t, b), StepSize(t);
    if i in Steps(lo, hi, step) { var k := StepsOnly(lo, hi, step, i); }
    if k: nat :| i == Step(lo, step, k) <= hi { StepsReach(lo, hi, step, k); }
  }

  // ---------- Whole patterns ----------

  lemma {:induction false} NothingEmpty(pieces: seq<string>)
    requires forall i :: 0 <= i < |pieces| ==> pieces[i] != ""
    ensures NotEmpty(pieces) == pieces
    decreases |pieces|
  {
    if pieces != [] { NothingEmpty(pieces[1..]); }
  }

  lemma SplitJoined(pieces: seq<string>, c: char, p: char -> bool)
    requires p(c) && forall i :: 0 <= i < |pieces| ==> pieces[i] != "" && Free(pieces[i], p)
    ensures NotEmpty(Split(Join(pieces, c), p)) == pieces
  {
    if pieces == [] {
      assert NotEmpty([""]) == NotEmpty([""][1..]);
    } else {
      SplitJoin(pieces, c, p);
      NothingEmpty(pieces);
    }
  }

  lemma {:induction false} JoinedIsFree(pieces: seq<string>, c: char, p: char -> bool)
    requires !p(c) && forall i :: 0 <= i < |pieces| ==> pieces[i] != "" && Free(pieces[i], p)
    ensures Free(Join(pieces, c), p) && (pieces != [] ==> Join(pieces, c) != "")
    decreases |pieces|
  {
    if |pieces| > 1 { JoinedIsFree(pieces[1..], c, p); }
  }

  function Texts(ts: seq<Term>): (r: seq<string>)
    ensures |r| == |ts|
  {
    seq(|ts|, i requires 0 <= i < |ts| => RenderTerm(ts[i]))
  }

  function RenderField(ts: seq<Term>): string { Join(Texts(ts), ',') }

  lemma TermText(t: Term)
    requires WellSpelled(t)
    ensures RenderTerm(t) != "" && Free(RenderTerm(t), Comma) && Free(RenderTerm(t), Space)
  {
    hide NatNumeral;
  }

  predicate AllLegal(ts: seq<Term>, b: Bounds) { forall i :: 0 <= i < |ts| ==> Legal(ts[i], b) }

  predicate AllSpelled(ts: seq<Term>) { forall i :: 0 <= i < |ts| ==> WellSpelled(ts[i]) }

  ghost predicate AnyAdmits(ts: seq<Term>, b: Bounds, v: int) {
    exists i :: 0 <= i < |ts| && Known(ts[i], b) && Admits(ts[i], b, v)
  }

  /** What a set of values says about a field's terms. */
  ghost predicate Denotes(r: Option<set<int>>, ts: seq<Term>, b: Bounds) {
    && (r.Some? <==> AllLegal(ts, b))
    && (r.Some? ==> forall v :: v in r.value <==> AnyAdmits(ts, b, v))
  }

  lemma {:induction false} TermsAreRead(ts: seq<Term>, b: Bounds)
    requires NamesAreWords(b) && b.max <= MAX_INT64 && AllSpelled(ts)
    ensures Denotes(ParseAll(Texts(ts), b), ts, b)
    decreases |ts|
  {
    hide ParseRange, RenderTerm, Legal, Admits, Known, WellSpelled;
    if ts != [] {
      TermRoundTrip(ts[0], b);
      TermsAreRead(ts[1..], b);
      assert Texts(ts)[1..] == Texts(ts[1..]);
      assert AllLegal(ts, b) <==> Legal(ts[0], b) && AllLegal(ts[1..], b) by {
        assert forall i :: 0 < i < |ts| ==> ts[i] == ts[1..][i - 1];
      }
      forall v ensures AnyAdmits(ts, b, v) <==> (Known(ts[0], b) && Admits(ts[0], b, v)) || AnyAdmits(ts[1..], b, v) {
        FirstOrRest(ts, b, v);
      }
    }
  }

  lemma FirstOrRest(ts: seq<Term>, b: Bounds, v: int)
    requires ts != []
    ensures AnyAdmits(ts, b, v) <==> (Known(ts[0], b) && Admits(ts[0], b, v)) || AnyAdmits(ts[1..], b, v)
  {
    hide Admits, Known;
    if i :| 0 <= i < |ts| && Known(ts[i], b) && Admits(ts[i], b, v) {
      assert i > 0 ==> ts[1..][i - 1] == ts[i];
    }
    if i :| 0 <= i < |ts| - 1 && Known(ts[1..][i], b) && Admits(ts[1..][i], b, v) {
      assert ts[1..][i] == ts[i + 1];
    }
  }

  /** The text of a field is accepted exactly when all its terms are legal, and
      then denotes exactly the values that one of them admits. */
  lemma FieldRoundTrip(ts: seq<Term>, b: Bounds)
    requires NamesAreWords(b) && b.max <= MAX_INT64 && AllSpelled(ts)
    ensures Denotes(ParseField(RenderField(ts), b), ts, b)
  {
    hide RenderTerm, ParseAll, Denotes;
    forall i | 0 <= i < |ts| ensures Texts(ts)[i] != "" && Free(Texts(ts)[i], Comma) { TermText(ts[i]); }
    SplitJoined(Texts(ts), ',', Comma);
    TermsAreRead(ts, b);
  }

  function RenderFields(fs: seq<seq<Term>>): (r: seq<string>)
    ensures |r| == |fs|
  {
    seq(|fs|, i requires 0 <= i < |fs| => RenderField(fs[i]))
  }

  const BOUNDS := [SECONDS, MINUTES, HOURS, DAYS, MONTHS, WEEKDAYS]

  lemma BoundsAreWords(j: nat)
    requires j < 6
    ensures NamesAreWords(BOUNDS[j]) && BOUNDS[j].max <= MAX_INT64
  {
    forall k: string | k in BOUNDS[j].names ensures !AllDigits(k) {
      assert |k| == 3 && !IsDigit(k[0]);
    }
  }

  function FieldSet(s: Schedule, j: nat): set<int>
    requires j < 6
  {
    if j == 0 then s.second else if j == 1 then s.minute else if j == 2 then s.hour
    else if j == 3 then s.dayOfMonth else if j == 4 then s.month else s.dayOfWeek
  }

  /** The text of six fields is accepted exactly when every term is legal in its
      field, and then each field of the schedule holds exactly the values that
      one of its terms admits. */
  lemma PatternRoundTrip(fs: seq<seq<Term>>)
    requires |fs| == 6 && forall j :: 0 <= j < 6 ==> fs[j] != [] && AllSpelled(fs[j])
    ensures ParsePattern(Join(RenderFields(fs), ' ')).Some? <==> forall j :: 0 <= j < 6 ==> AllLegal(fs[j], BOUNDS[j])
    ensures ParsePattern(Join(RenderFields(fs), ' ')).Some? ==>
              forall j, v :: 0 <= j < 6 ==>
                (v in FieldSet(ParsePattern(Join(RenderFields(fs), ' ')).value, j) <==> AnyAdmits(fs[j], BOUNDS[j], v))
  {
    hide Split, NotEmpty, Join, AllLegal, AnyAdmits, ParseField, RenderFields;
    FieldsAreRead(fs);
    var texts := RenderFields(fs);
    assert BOUNDS[0] == SECONDS && BOUNDS[1] == MINUTES && BOUNDS[2] == HOURS;
    assert BOUNDS[3] == DAYS && BOUNDS[4] == MONTHS && BOUNDS[5] == WEEKDAYS;
    assert forall j {:trigger texts[j]} :: 0 <= j < 6 ==> Denotes(ParseField(texts[j], BOUNDS[j]), fs[j], BOUNDS[j]);
  }

  lemma FieldsAreRead(fs: seq<seq<Term>>)
    requires |fs| == 6 && forall j :: 0 <= j < 6 ==> fs[j] != [] && AllSpelled(fs[j])
    ensures NotEmpty(Split(Join(RenderFields(fs), ' '), Space)) == RenderFields(fs)
    ensures forall j {:trigger RenderFields(fs)[j]} ::
              0 <= j < 6 ==> Denotes(ParseField(RenderFields(fs)[j], BOUNDS[j]), fs[j], BOUNDS[j])
  {
    hide Denotes, ParseField, RenderField;
    var texts := RenderFields(fs);
    forall j | 0 <= j < 6 ensures texts[j] != "" && Free(texts[j], Space) { FieldText(fs[j]); }
    SplitJoined(texts, ' ', Space);
    forall j {:trigger RenderFields(fs)[j]} | 0 <= j < 6
      ensures Denotes(ParseField(RenderFields(fs)[j], BOUNDS[j]), fs[j], BOUNDS[j])
    {
      BoundsAreWords(j);
      FieldRoundTrip(fs[j], BOUNDS[j]);
    }
  }

  lemma FieldText(ts: seq<Term>)
    requires ts != [] && AllSpelled(ts)
    ensures RenderField(ts) != "" && Free(RenderField(ts), Space)
  {
    hide RenderTerm;
    forall i | 0 <= i < |ts| ensures Texts(ts)[i] != "" && Free(Texts(ts)[i], Space) { TermText(ts[i]); }
    JoinedIsFree(Texts(ts), ',', Space);
  }

  // ---------- Texts that start with a star ----------

  predicate StarRune(c: char) { c == '*' || c == '?' }

  lemma {:induction false} NoNumber(s: string)
    requires s != "" && !IsDigit(s[0])
    ensures ValueOf(s).NotNatural?
    decreases |s|
  {
    if |s| > 1 { NoNumber(s[..|s| - 1]); }
  }

  lemma NamesStartWithLetters(j: nat, k: string)
    requires j < 6 && k in BOUNDS[j].names
    ensures |k| == 3 && !StarRune(k[0])
  {
  }

  lemma StarIsNoName(c: char, x: string, j: nat)
    requires StarRune(c) && j < 6
    ensures ParseIntOrName([c] + x, BOUNDS[j].names).None?
  {
    NoNumber([c] + x);
    assert Lower([c] + x)[0] == c;
    if Lower([c] + x) in BOUNDS[j].names { NamesStartWithLetters(j, Lower([c] + x)); }
  }

  lemma SplitFirst(c: char, u: string, p: char -> bool)
    requires !p(c)
    ensures Split([c] + u, p) == [[c] + Split(u, p)[0]] + Split(u, p)[1..]
    ensures Split(u, p)[0] == "" <==> u == "" || p(u[0])
    ensures Split(u, p)[0] != "" ==> u != "" && Split(u, p)[0][0] == u[0]
  {
    assert ([c] + u)[1..] == u;
  }

  /** What the text is, when no name starts with the star. */
  lemma StarRange(c: char, u: string, b: Bounds)
    requires StarRune(c) && b.min <= b.max
    requires ParseIntOrName([c] + Split(Split(u, Slash)[0], Hyphen)[0], b.names).None?
             || Split(Split(u, Slash)[0], Hyphen)[0] == ""
    ensures StarMeans(ParseRange([c] + u, b), u, b)
  {
    hide ParseIntOrName, ParseNumber, Steps, Split;
    var parts := Split(u, Slash);
    var v := parts[0];
    SplitFirst(c, u, Slash);
    SplitFirst(c, v, Hyphen);
    var range, low := Split([c] + u, Slash), Split([c] + v, Hyphen);
    assert StepOf(range) == StepOf(parts) && range[0] == [c] + v && low[0] == [c] + Split(v, Hyphen)[0];
    assert IsStar(low[0]) <==> Split(v, Hyphen)[0] == "";
  }

  /** Accepted exactly when the star is followed by nothing, a hyphen or a slash, and
      what is behind the first slash, if there is one, is a positive number; then the
      whole range in such steps. */
  predicate StarMeans(r: Option<set<int>>, u: string, b: Bounds) {
    var step := StepOf(Split(u, Slash));
    && (r.Some? <==> (u == "" || u[0] == '-' || u[0] == '/') && step.Some? && step.value > 0)
    && (r.Some? ==> r.value == Steps(b.min, b.max, step.value) + if step.value <= 1 then {STAR} else {})
  }

  /** A text that starts with a star is accepted so in every field: what is between a
      hyphen and the slash is not looked at. */
  lemma StarIgnoresItsRange(c: char, u: string, j: nat)
    requires StarRune(c) && j < 6
    ensures StarMeans(ParseRange([c] + u, BOUNDS[j]), u, BOUNDS[j])
  {
    hide StarMeans, ParseRange, Split;
    StarIsNoName(c, Split(Split(u, Slash)[0], Hyphen)[0], j);
    StarRange(c, u, BOUNDS[j]);
  }

  datatype CronResult = BadPattern | Fires(fire: Fire)

  /** Parse a pattern and search for its next time. */
  method ParseCron(pattern: string, ts: int) returns (r: CronResult)
    ensures r.BadPattern? <==> ParsePattern(pattern).None?
    ensures r.Fires? && r.fire.At? ==>
              && ts < r.fire.seconds * 1_000_000_000 && Matches(ParsePattern(pattern).value, r.fire.seconds)
              && (forall t {:trigger Matches(ParsePattern(pattern).value, t)} ::
                    ts < t * 1_000_000_000 && t < r.fire.seconds ==> !Matches(ParsePattern(pattern).value, t))
    ensures r.Fires? ==>
              (r.fire.ExceedsRange? <==>
                 forall t {:trigger Matches(ParsePattern(pattern).value, t)} ::
                   ts < t * 1_000_000_000 && Year(t) <= Year(ts / 1_000_000_000 + 1) + 5 ==>
                     !Matches(ParsePattern(pattern).value, t))
  {
    hide Matches, ParseField, Year;
    var fields := NotEmpty(Split(pattern, Space));
    if |fields| != 6 { return BadPattern; }
    var second := GetField(fields[0], SECONDS);
    if second.None? { return BadPattern; }
    var minute := GetField(fields[1], MINUTES);
    if minute.None? { return BadPattern; }
    var hour := GetField(fields[2], HOURS);
    if hour.None? { return BadPattern; }
    var dayOfMonth := GetField(fields[3], DAYS);
    if dayOfMonth.None? { return BadPattern; }
    var month := GetField(fields[4], MONTHS);
    if month.None? { return BadPattern; }
    var dayOfWeek := GetField(fields[5], WEEKDAYS);
    if dayOfWeek.None? { return BadPattern; }
    var fire := NextFire(Schedule(second.value, minute.value, hour.value, dayOfMonth.value, month.value, dayOfWeek.value), ts);
    r := Fires(fire);
  }
}
