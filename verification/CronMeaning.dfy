/** What a cron pattern means in terms of clock and calendar. */
module CronMeaning {
  import opened Ascii
  import opened Calendar
  import opened CronPattern
  import opened CronSearch
  import opened Division
  import opened Int64
  import opened Optional
  import opened Splitting

  // ---------- Fields and names ----------

  /** What the six fields are compared with, in their order. */
  function Reading(t: int, j: nat): int
    requires j < 6
  {
    if j == 0 then Second(t) else if j == 1 then Minute(t) else if j == 2 then Hour(t)
    else if j == 3 then Day(t) else if j == 4 then Month(t) else Weekday(t)
  }

  /** A time at which a field reads `v`. */
  function Sample(j: nat, v: int): int
    requires j < 6 && BOUNDS[j].min <= v <= BOUNDS[j].max
  {
    if j == 0 then v else if j == 1 then v * 60 else if j == 2 then v * 3600
    else if j == 3 then Date(1970, 1, v, 0, 0, 0) else if j == 4 then Date(1970, v, 1, 0, 0, 0) else (v + 3) * 86400
  }

  lemma SampleDate(m: int, d: int)
    requires 1 <= m <= 12 && 1 <= d <= DaysInMonth(1970, m)
    ensures Month(Date(1970, m, d, 0, 0, 0)) == m && Day(Date(1970, m, d, 0, 0, 0)) == d
  {
    hide YearOfDay, MonthOfDay, MonthStart, DayNumber, DaysInMonth;
    var n := DayNumber(1970, m, d);
    CivilRoundTrip(1970, m, d);
    Midnights(n - EPOCH_DAY);
    assert DayNumberOf(Date(1970, m, d, 0, 0, 0)) == n;
  }

  lemma SampleReads(j: nat, v: int)
    requires j < 6 && BOUNDS[j].min <= v <= BOUNDS[j].max
    ensures Reading(Sample(j, v), j) == v
  {
    if j == 3 {
      MonthLengths(1970, 1);
      hide Date, DaysInMonth;
      SampleDate(1, v);
    } else if j == 4 {
      MonthLengths(1970, v);
      hide Date, DaysInMonth;
      SampleDate(v, 1);
    }
  }

  lemma ReadingFits(t: int, j: nat)
    requires j < 6
    ensures BOUNDS[j].min <= Reading(t, j) <= BOUNDS[j].max
  {
    hide Year, Month, Day, Hour, Minute, Second, DaysInMonth;
    ClockReads(t);
    MonthFits(t);
    DayAfter(t);
    MonthLengths(Year(t), Month(t));
  }

  lemma MonthFits(t: int)
    ensures 1 <= Month(t) <= 12
  {
  }

  /** The bounds of a field are exactly what it can read. */
  lemma BoundsAreTight(j: nat, v: int)
    requires j < 6
    ensures (exists t :: Reading(t, j) == v) <==> BOUNDS[j].min <= v <= BOUNDS[j].max
  {
    hide Reading;
    if t :| Reading(t, j) == v { ReadingFits(t, j); }
    if BOUNDS[j].min <= v <= BOUNDS[j].max { SampleReads(j, v); }
  }

  const MONTH_NAMES := ["jan", "feb", "mar", "apr", "may", "jun", "jul", "aug", "sep", "oct", "nov", "dec"]
  const DAY_NAMES := ["sun", "mon", "tue", "wed", "thu", "fri", "sat"]

  /** Months are named from January on and weekdays from Sunday on, in any case; there
      are no other names. */
  lemma NamesCount(j: nat, w: string, i: nat)
    requires j < 6
    ensures j == 4 && i < 12 && Lower(w) == MONTH_NAMES[i] ==> Meaning(Word(w), BOUNDS[j]) == Some(i + 1)
    ensures j == 5 && i < 7 && Lower(w) == DAY_NAMES[i] ==> Meaning(Word(w), BOUNDS[j]) == Some(i)
    ensures Meaning(Word(w), BOUNDS[j]).Some? ==> (j == 4 && Lower(w) in MONTH_NAMES) || (j == 5 && Lower(w) in DAY_NAMES)
  {
    hide Lower;
  }

  // ---------- Whole patterns ----------

  /** `v` is from the low to the high end, in steps. */
  predicate Takes(t: Term, b: Bounds, v: int)
    requires Legal(t, b)
  {
    var lo := match t.base case Any(_) => b.min case One(a) => Meaning(a, b).value case Span(a, _) => Meaning(a, b).value;
    var hi := match t.base
              case Any(_) => b.max
              case One(a) => if t.step.None? then lo else b.max
              case Span(_, a) => Meaning(a, b).value;
    lo <= v <= hi && (t.step.Some? ==> (v - lo) % t.step.value == 0)
  }

  predicate Starred(t: Term) { t.base.Any? && (t.step.None? || t.step.value == 1) }

  predicate FieldTakes(ts: seq<Term>, b: Bounds, v: int)
    requires AllLegal(ts, b)
  {
    exists i :: 0 <= i < |ts| && Takes(ts[i], b, v)
  }

  predicate FieldStarred(ts: seq<Term>) { exists i :: 0 <= i < |ts| && Starred(ts[i]) }

  /** Second, minute, hour and month are each taken by their field. Both day fields
      must take the day when one of them has a star, otherwise one is enough. */
  predicate Wanted(fs: seq<seq<Term>>, t: int)
    requires |fs| == 6 && forall j :: 0 <= j < 6 ==> AllLegal(fs[j], BOUNDS[j])
  {
    && FieldTakes(fs[0], BOUNDS[0], Second(t)) && FieldTakes(fs[1], BOUNDS[1], Minute(t))
    && FieldTakes(fs[2], BOUNDS[2], Hour(t)) && FieldTakes(fs[4], BOUNDS[4], Month(t))
    && (var date, week := FieldTakes(fs[3], BOUNDS[3], Day(t)), FieldTakes(fs[5], BOUNDS[5], Weekday(t));
        (date || week) && (FieldStarred(fs[3]) || FieldStarred(fs[5]) ==> date && week))
  }

  lemma OnAStep(lo: int, step: nat, v: int)
    requires step > 0
    ensures (exists k: nat :: v == Step(lo, step, k)) <==> lo <= v && (v - lo) % step == 0
  {
    if k: nat :| v == Step(lo, step, k) {
      Spread(lo, step, k);
      DivModIs(k, 0, step);
    }
    if lo <= v && (v - lo) % step == 0 {
      var k := (v - lo) / step;
      assert v - lo == k * step;
      NotNegative(v - lo, step);
      assert v == Step(lo, step, k);
    }
  }

  lemma NotNegative(x: int, step: nat)
    requires step > 0 && x >= 0
    ensures x / step >= 0
  {
  }

  lemma TakesWhatItAdmits(t: Term, b: Bounds, v: int)
    requires Legal(t, b) && v != STAR
    ensures Takes(t, b, v) <==> Admits(t, b, v)
  {
    hide Meaning;
    OnAStep(First(t, b), StepSize(t), v);
    hide Step;
    if t.step.None? { assert (v - First(t, b)) % 1 == 0; }
  }

  lemma StarredAdmits(t: Term, b: Bounds)
    requires Legal(t, b) && b.max < STAR
    ensures Starred(t) <==> Admits(t, b, STAR)
  {
  }

  lemma FieldMeans(ts: seq<Term>, b: Bounds, v: int)
    requires AllLegal(ts, b) && b.max < STAR
    ensures v != STAR ==> (FieldTakes(ts, b, v) <==> AnyAdmits(ts, b, v))
    ensures FieldStarred(ts) <==> AnyAdmits(ts, b, STAR)
  {
    hide Takes, Admits, Starred, Known;
    forall i | 0 <= i < |ts|
      ensures Known(ts[i], b) && (v != STAR ==> (Takes(ts[i], b, v) <==> Admits(ts[i], b, v)))
      ensures Starred(ts[i]) <==> Admits(ts[i], b, STAR)
    {
      assert Legal(ts[i], b);
      if v != STAR { TakesWhatItAdmits(ts[i], b, v); }
      StarredAdmits(ts[i], b);
    }
  }

  /** The schedule of a pattern text matches a second exactly when clock and calendar
      then read what its terms want. */
  lemma MatchesWhatIsWritten(fs: seq<seq<Term>>, t: int)
    requires |fs| == 6 && forall j :: 0 <= j < 6 ==> fs[j] != [] && AllSpelled(fs[j]) && AllLegal(fs[j], BOUNDS[j])
    ensures ParsePattern(Join(RenderFields(fs), ' ')).Some?
    ensures Matches(ParsePattern(Join(RenderFields(fs), ' ')).value, t) <==> Wanted(fs, t)
  {
    hide Year, Month, Day, Weekday, Hour, Minute, Second, FieldTakes, FieldStarred, AnyAdmits, AllSpelled, AllLegal;
    hide ParsePattern, Join, RenderFields;
    PatternRoundTrip(fs);
    var s := ParsePattern(Join(RenderFields(fs), ' ')).value;
    forall j: nat | j < 6
      ensures Reading(t, j) in FieldSet(s, j) <==> FieldTakes(fs[j], BOUNDS[j], Reading(t, j))
      ensures STAR in FieldSet(s, j) <==> FieldStarred(fs[j])
    {
      ReadingFits(t, j);
      FieldMeans(fs[j], BOUNDS[j], Reading(t, j));
    }
    assert Reading(t, 0) in FieldSet(s, 0) <==> FieldTakes(fs[0], BOUNDS[0], Reading(t, 0));
    assert Reading(t, 1) in FieldSet(s, 1) <==> FieldTakes(fs[1], BOUNDS[1], Reading(t, 1));
    assert Reading(t, 2) in FieldSet(s, 2) <==> FieldTakes(fs[2], BOUNDS[2], Reading(t, 2));
    assert Reading(t, 3) in FieldSet(s, 3) <==> FieldTakes(fs[3], BOUNDS[3], Reading(t, 3));
    assert Reading(t, 4) in FieldSet(s, 4) <==> FieldTakes(fs[4], BOUNDS[4], Reading(t, 4));
    assert Reading(t, 5) in FieldSet(s, 5) <==> FieldTakes(fs[5], BOUNDS[5], Reading(t, 5));
    assert STAR in FieldSet(s, 3) <==> FieldStarred(fs[3]);
    assert STAR in FieldSet(s, 5) <==> FieldStarred(fs[5]);
  }

  // ---------- Blanks and commas ----------

  /** Texts with runs of separators before, between and after them. */
  function Spaced(texts: seq<string>, gaps: seq<string>): string
    requires |gaps| == |texts| + 1
  {
    gaps[0] + if texts == [] then "" else texts[0] + Spaced(texts[1..], gaps[1..])
  }

  predicate Runs(s: string, p: char -> bool) { forall i :: 0 <= i < |s| ==> p(s[i]) }

  /** Gaps are made of separators, and there is one between any two texts. */
  predicate GapsOk(gaps: seq<string>, p: char -> bool) {
    && (forall i :: 0 <= i < |gaps| ==> Runs(gaps[i], p))
    && (forall i :: 0 < i < |gaps| - 1 ==> gaps[i] != "")
  }

  predicate TextsOk(texts: seq<string>, p: char -> bool) {
    forall i :: 0 <= i < |texts| ==> texts[i] != "" && Free(texts[i], p)
  }

  lemma {:induction false} GapIsSkipped(g: string, s: string, p: char -> bool)
    requires Runs(g, p)
    ensures NotEmpty(Split(g + s, p)) == NotEmpty(Split(s, p))
    decreases |g|
  {
    if g == "" {
      assert g + s == s;
    } else {
      assert (g + s)[0] == g[0] && (g + s)[1..] == g[1..] + s;
      GapIsSkipped(g[1..], s, p);
      var rest := Split(g[1..] + s, p);
      assert ([""] + rest)[1..] == rest;
      assert [] + NotEmpty(rest) == NotEmpty(rest);
    }
  }

  lemma TextIsTaken(t: string, rest: string, p: char -> bool)
    requires t != "" && Free(t, p) && (rest == "" || p(rest[0]))
    ensures NotEmpty(Split(t + rest, p)) == [t] + NotEmpty(Split(rest, p))
  {
    if rest == "" {
      assert t + rest == t;
      SplitOne(t, p);
      assert [t][1..] == [] && [""][1..] == [];
    } else {
      assert rest == [rest[0]] + rest[1..];
      SplitMore(t, rest[0], rest[1..], p);
      var tail := Split(rest[1..], p);
      assert ([t] + tail)[1..] == tail;
      GapIsSkipped([rest[0]], rest[1..], p);
    }
  }

  /** Splitting takes the texts out again, however many separators are around them. */
  lemma {:induction false} GapsDoNotMatter(texts: seq<string>, gaps: seq<string>, p: char -> bool)
    requires |gaps| == |texts| + 1 && GapsOk(gaps, p) && TextsOk(texts, p)
    ensures NotEmpty(Split(Spaced(texts, gaps), p)) == texts
    decreases |texts|
  {
    hide Split, NotEmpty;
    if texts == [] {
      NothingButGap(gaps[0], p);
      assert gaps[0] + "" == gaps[0];
    } else {
      var rest := Spaced(texts[1..], gaps[1..]);
      assert GapsOk(gaps[1..], p) && TextsOk(texts[1..], p) by {
        assert forall i :: 0 <= i < |gaps| - 1 ==> gaps[1..][i] == gaps[i + 1];
        assert forall i :: 0 <= i < |texts| - 1 ==> texts[1..][i] == texts[i + 1];
      }
      GapsDoNotMatter(texts[1..], gaps[1..], p);
      StartsWithGap(texts[1..], gaps[1..], p);
      GapIsSkipped(gaps[0], texts[0] + rest, p);
      TextIsTaken(texts[0], rest, p);
      assert [texts[0]] + texts[1..] == texts;
    }
  }

  lemma NothingButGap(g: string, p: char -> bool)
    requires Runs(g, p)
    ensures NotEmpty(Split(g, p)) == []
  {
    GapIsSkipped(g, "", p);
    assert g + "" == g && [""][1..] == [];
  }

  lemma StartsWithGap(texts: seq<string>, gaps: seq<string>, p: char -> bool)
    requires |gaps| == |texts| + 1 && Runs(gaps[0], p) && (texts != [] ==> gaps[0] != "")
    ensures Spaced(texts, gaps) == "" || p(Spaced(texts, gaps)[0])
  {
    if texts == [] { assert gaps[0] + "" == gaps[0]; }
  }

  /** Blanks, tabs among them, may surround the fields of a pattern, and commas the terms
      of a field. */
  lemma PatternIgnoresGaps(fs: seq<seq<Term>>, gaps: seq<string>)
    requires |fs| == 6 && forall j :: 0 <= j < 6 ==> fs[j] != [] && AllSpelled(fs[j])
    requires |gaps| == 7 && GapsOk(gaps, Space)
    ensures ParsePattern(Spaced(RenderFields(fs), gaps)) == ParsePattern(Join(RenderFields(fs), ' '))
  {
    hide ParseField, Spaced, GapsOk, Split, NotEmpty, Join, RenderFields;
    FieldsAreRead(fs);
    forall j | 0 <= j < 6 ensures RenderFields(fs)[j] != "" && Free(RenderFields(fs)[j], Space) { RenderedField(fs, j); }
    GapsDoNotMatter(RenderFields(fs), gaps, Space);
  }

  lemma RenderedField(fs: seq<seq<Term>>, j: nat)
    requires j < |fs| && fs[j] != [] && AllSpelled(fs[j])
    ensures RenderFields(fs)[j] != "" && Free(RenderFields(fs)[j], Space)
  {
    hide RenderField, AllSpelled;
    FieldText(fs[j]);
  }

  lemma FieldIgnoresCommas(ts: seq<Term>, gaps: seq<string>, b: Bounds)
    requires AllSpelled(ts) && |gaps| == |ts| + 1 && GapsOk(gaps, Comma)
    ensures ParseField(Spaced(Texts(ts), gaps), b) == ParseField(RenderField(ts), b)
  {
    hide RenderTerm, ParseAll, Spaced, GapsOk, Split, NotEmpty;
    forall i | 0 <= i < |ts| ensures Texts(ts)[i] != "" && Free(Texts(ts)[i], Comma) { TermText(ts[i]); }
    GapsDoNotMatter(Texts(ts), gaps, Comma);
    SplitJoined(Texts(ts), ',', Comma);
  }
}
