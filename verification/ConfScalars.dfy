/** Scalars that have more than one spelling, or a spelling of their own: strings with
    escapes, decimals, addresses and dates. */
module ConfScalars {
  import opened Ascii
  import opened ConfLexer
  import opened ConfParser
  import opened ConfRebuild
  import opened ConfText

  // ---------- The value of the last field ----------

  /** The field `f` with `text` for its value. */
  function TextField(f: Field, text: string): string {
    NoteText(f.note) + (KeyText(f.key, f.quote) + ([f.sep] + (text + [f.end])))
  }

  function ItemsBefore(before: seq<Field>, f: Field): seq<Item> {
    FlattenFields(before) + (NoteItems(f.note) + [Bare(KeyItem, f.key)])
  }

  /** The lexer gets to the value. */
  lemma EnterLast(before: seq<Field>, f: Field, text: string) returns (lx: Lexer)
    requires FieldsOk(before) && FieldOk(f) && text != "" && StartsValue(text[0])
    ensures At(lx, Value, On(TopValueEnd, Empty), text + [f.end]) && lx.start == lx.pos
    ensures Sends(Begin(RenderFields(before) + TextField(f, text)), ItemsBefore(before, f), lx)
  {
    hide RenderFields, FieldsOk, FlattenFields, NoteText, NoteItems, KeyText, KeyOk, SepOk, NoteOk, StartsValue, Sends;
    var all := RenderFields(before) + TextField(f, text);
    var first := Begin(all);
    assert Unread(first) == all;
    var d := ReadDocument(first, before, TextField(f, text));
    hide At;
    var n := ReadNote(d, Top, Empty, f.note, KeyText(f.key, f.quote) + ([f.sep] + (text + [f.end])));
    assert (text + [f.end])[0] == text[0];
    lx := ReadTopKey(n, f.key, f.quote, f.sep, text + [f.end]);
    SendsThen(d, NoteItems(f.note), n, [Bare(KeyItem, f.key)], lx);
    SendsThen(first, FlattenFields(before), d, NoteItems(f.note) + [Bare(KeyItem, f.key)], lx);
  }

  /** After the value the text ends. */
  lemma LeaveLast(first: Lexer, items: seq<Item>, lx: Lexer, it: Item, lx': Lexer, c: char)
    requires Sends(first, items, lx) && Sends(lx, [it], lx') && At(lx', TopValueEnd, Empty, [c]) && EndOk(c)
    ensures Good(first) && Bared(Run(first)) == items + ([it] + [Bare(EofItem, "")])
  {
    hide At, Sends;
    assert [c] == [c] + "";
    var e := LeaveTop(lx', c, "");
    FinishTop(e);
    AtIsGood(e, Top, Empty, "");
    SendsThen(lx, [it], lx', [], e);
    SendsThen(first, items, lx, [it] + [], e);
    SendsToEnd(first, items + ([it] + []), e, [Bare(EofItem, "")]);
    assert items + ([it] + []) + [Bare(EofItem, "")] == items + ([it] + [Bare(EofItem, "")]);
  }

  /** What parsing a document gives whose last value is one item. */
  function WithLast(m: map<string, Value>, key: string, r: Outcome<Value>): Outcome<map<string, Value>> {
    match r
    case Ok(v) => Ok(m[key := v])
    case Err => Err
    case Panic => Panic
  }

  /** What an item sets, or why it does not. */
  function Setting(st: Stacks, r: Outcome<Value>): Outcome<Stacks> {
    match r
    case Ok(v) => SetValue(false, st, v)
    case Err => Err
    case Panic => Panic
  }

  lemma LastIsParsed(w: World, before: seq<Field>, f: Field, text: string, it: Item, r: Outcome<Value>)
    requires FieldsOk(before) && ScalarType(it.typ)
    requires Bared(Lex(RenderFields(before) + TextField(f, text))) == ItemsBefore(before, f) + ([it] + [Bare(EofItem, "")])
    requires var st := Stacks([MapCtx(DenoteFields(map[], before))], [f.key], []);
             ProcessItem(w, {}, false, st, it) == Setting(st, r)
    ensures Parse(w, false, RenderFields(before) + TextField(f, text)) == WithLast(DenoteFields(map[], before), f.key, r)
  {
    hide DenoteFields, FieldsOk, RenderFields, TextField, FlattenFields, NoteItems, ProcessItems, ProcessItem, Lex, Bared, SetValue;
    var all, key, eof := RenderFields(before) + TextField(f, text), [Bare(KeyItem, f.key)], [Bare(EofItem, "")];
    PositionsDoNotMatter(w, {}, Root, false, Lex(all));
    FieldsFit(before);
    var none, m := Stacks([], [], []), DenoteFields(map[], before);
    assert PushContext(none, MapCtx(map[])) == Root && PushContext(none, MapCtx(m)) == Stacks([MapCtx(m)], [], []);
    assert ItemsBefore(before, f) + ([it] + eof) == FlattenFields(before) + (NoteItems(f.note) + (key + ([it] + eof)));
    RebuildsFields(w, {}, none, map[], before, NoteItems(f.note) + (key + ([it] + eof)));
    ProcessNote(w, {}, Stacks([MapCtx(m)], [], []), f.note, key + ([it] + eof));
    ProcessKey(w, {}, Stacks([MapCtx(m)], [], []), false, f.key, [it] + eof);
    assert [] + [f.key] == [f.key];
    ProcessFirst(w, {}, Stacks([MapCtx(m)], [f.key], []), f.key != "}", it, eof);
    if r.Ok? {
      LastIsSet(m, f.key, r.value);
      EndOfItems(w, {}, Stacks([MapCtx(m[f.key := r.value])], [], []));
    }
  }

  lemma LastIsSet(m: map<string, Value>, key: string, v: Value)
    ensures SetValue(false, Stacks([MapCtx(m)], [key], []), v) == Ok(Stacks([MapCtx(m[key := v])], [], []))
  {
    assert [key][..0] == [] && [MapCtx(m)][0 := MapCtx(m[key := v])] == [MapCtx(m[key := v])];
  }

  // ---------- Escapes ----------

  /** A rune of a quoted string: itself, a backslash and a letter, or a backslash, an x
      and two hexadecimal digits in either case. */
  datatype Spelling = Plain(c: char) | Letter(name: char) | Hex(n: int, upHi: bool, upLo: bool)

  predicate SpellingOk(s: Spelling) {
    match s
    case Plain(c) => c != '"' && c != '\\' && c != EOF
    case Letter(c) => c == 't' || c == 'n' || c == 'r' || c == '"' || c == '\\'
    case Hex(n, _, _) => 0 <= n < 256
  }

  function HexDigit(n: int, upper: bool): char
    requires 0 <= n < 16
  {
    (if upper then "0123456789ABCDEF" else "0123456789abcdef")[n]
  }

  function Spell(s: Spelling): string
    requires SpellingOk(s)
  {
    match s
    case Plain(c) => [c]
    case Letter(c) => "\\" + [c]
    case Hex(n, hi, lo) => "\\" + ("x" + ([HexDigit(n / 16, hi)] + [HexDigit(n % 16, lo)]))
  }

  /** The rune that is meant. */
  function Meant(s: Spelling): char
    requires SpellingOk(s)
  {
    match s
    case Plain(c) => c
    case Letter(c) => if c == 't' then '\t' else if c == 'n' then '\n' else if c == 'r' then '\r' else c
    case Hex(n, _, _) => n as char
  }

  predicate AllOk(ss: seq<Spelling>) { forall i :: 0 <= i < |ss| ==> SpellingOk(ss[i]) }

  function SpellAll(ss: seq<Spelling>): string
    requires AllOk(ss)
  {
    if ss == [] then "" else Spell(ss[0]) + SpellAll(ss[1..])
  }

  function MeantAll(ss: seq<Spelling>): string
    requires AllOk(ss)
  {
    seq(|ss|, i requires 0 <= i < |ss| => Meant(ss[i]))
  }

  lemma LetterRead(lx: Lexer, k: Stack, c: char, rest: string) returns (lx': Lexer)
    requires Within(lx, StringEscape, k, [c] + rest) && SpellingOk(Letter(c))
    ensures Within(lx', DubQuotedString, k, rest) && Content(lx') == Join(lx.parts) + [Meant(Letter(c))] && Sends(lx, [], lx')
  {
    hide Good, Run, Sends, Next, Peeked, Ignore, Keeps, RoleOf, Rank;
    UnreadNext(lx, c, rest);
    lx' := OneStep(lx);
    JoinAppend(lx.parts, [Meant(Letter(c))]);
  }

  lemma HexDigitCounts(n: int, upper: bool)
    requires 0 <= n < 16
    ensures IsHex(HexDigit(n, upper)) && HexValue(HexDigit(n, upper)) == n && !IsNL(HexDigit(n, upper))
  {
  }

  lemma HexRead(lx: Lexer, k: Stack, hi: char, lo: char, n: int, rest: string) returns (lx': Lexer)
    requires Within(lx, StringBinary, k, [hi] + ([lo] + rest)) && IsHex(hi) && IsHex(lo) && !IsNL(hi) && !IsNL(lo)
    requires 0 <= n < 256 && 16 * HexValue(hi) + HexValue(lo) == n
    ensures Within(lx', DubQuotedString, k, rest) && Content(lx') == Join(lx.parts) + [n as char] && Sends(lx, [], lx')
  {
    hide Good, Run, Sends, Next, Peeked, Ignore, Keeps, RoleOf, Rank, HexValue, IsHex;
    UnreadNext(lx, hi, [lo] + rest);
    UnreadNext(Next(lx), lo, rest);
    lx' := OneStep(lx);
    JoinAppend(lx.parts, [n as char]);
  }

  lemma SpellingRead(lx: Lexer, k: Stack, s: Spelling, rest: string) returns (lx': Lexer)
    requires SpellingOk(s) && Within(lx, DubQuotedString, k, Spell(s) + rest)
    ensures Within(lx', DubQuotedString, k, rest) && Content(lx') == Content(lx) + [Meant(s)] && Sends(lx, [], lx')
  {
    hide Good, Run, Bared, Content, HexDigit, IsHex, HexValue;
    match s
    case Plain(c) => lx' := PlainRune(lx, k, c, rest);
    case Letter(c) =>
      assert Spell(s) + rest == "\\" + ([c] + rest);
      var e := Backslash(lx, k, [c] + rest);
      lx' := LetterRead(e, k, c, rest);
      SendsThen(lx, [], e, [], lx');
    case Hex(n, up, lowUp) =>
      var hi, lo := HexDigit(n / 16, up), HexDigit(n % 16, lowUp);
      HexDigitCounts(n / 16, up);
      HexDigitCounts(n % 16, lowUp);
      assert Spell(s) + rest == "\\" + ("x" + ([hi] + ([lo] + rest)));
      var e := Backslash(lx, k, "x" + ([hi] + ([lo] + rest)));
      var h := EscapeHex(e, k, [hi] + ([lo] + rest));
      lx' := HexRead(h, k, hi, lo, n, rest);
      SendsThen(lx, [], e, [], h);
      SendsThen(lx, [], h, [], lx');
  }

  lemma {:induction false} SpellingsRead(lx: Lexer, k: Stack, ss: seq<Spelling>, rest: string) returns (lx': Lexer)
    requires AllOk(ss) && Within(lx, DubQuotedString, k, SpellAll(ss) + rest)
    ensures Within(lx', DubQuotedString, k, rest) && Content(lx') == Content(lx) + MeantAll(ss) && Sends(lx, [], lx')
    decreases |ss|
  {
    hide Good, Run, Bared, Content, Spell, Meant;
    if ss == [] {
      lx' := lx;
      assert SpellAll(ss) + rest == rest;
      assert Content(lx) + MeantAll(ss) == Content(lx);
      assert [] + Bared(Run(lx)) == Bared(Run(lx));
    } else {
      assert SpellAll(ss) + rest == Spell(ss[0]) + (SpellAll(ss[1..]) + rest);
      var mid := SpellingRead(lx, k, ss[0], SpellAll(ss[1..]) + rest);
      lx' := SpellingsRead(mid, k, ss[1..], rest);
      SendsThen(lx, [], mid, [], lx');
      assert MeantAll(ss) == [Meant(ss[0])] + MeantAll(ss[1..]);
    }
  }

  lemma ReadSpelled(lx: Lexer, ret: State, k: Stack, ss: seq<Spelling>, rest: string) returns (lx': Lexer)
    requires AllOk(ss) && At(lx, Value, On(ret, k), "\"" + (SpellAll(ss) + ("\"" + rest)))
    ensures At(lx', ret, k, rest) && Sends(lx, [Bare(StringItem, MeantAll(ss))], lx')
  {
    hide Good, Run, Bared, Content, SpellAll, MeantAll;
    var a := OpenString(lx, On(ret, k), SpellAll(ss) + ("\"" + rest));
    var b := SpellingsRead(a, On(ret, k), ss, "\"" + rest);
    assert "" + MeantAll(ss) == MeantAll(ss);
    lx' := CloseString(b, ret, k, rest);
    SendsThen(lx, [], a, [], b);
    SendsThen(lx, [], b, [Bare(StringItem, MeantAll(ss))], lx');
    assert [] + [Bare(StringItem, MeantAll(ss))] == [Bare(StringItem, MeantAll(ss))];
  }

  /** A quoted string means its runes, however each of them is spelled. */
  lemma SpelledTextIsParsed(w: World, before: seq<Field>, f: Field, ss: seq<Spelling>)
    requires FieldsOk(before) && FieldOk(f) && AllOk(ss)
    ensures Parse(w, false, RenderFields(before) + TextField(f, "\"" + (SpellAll(ss) + "\"")))
            == Ok(DenoteFields(map[], before)[f.key := Text(MeantAll(ss))])
  {
    hide DenoteFields, FieldsOk, FieldOk, RenderFields, TextField, SpellAll, MeantAll, ItemsBefore, Lex, Bared, Parse, SetValue, ProcessItem, AllOk;
    var text, it := "\"" + (SpellAll(ss) + "\""), Bare(StringItem, MeantAll(ss));
    LexSpelled(before, f, ss);
    TextSets(w, Stacks([MapCtx(DenoteFields(map[], before))], [f.key], []), it);
    LastIsParsed(w, before, f, text, it, Ok(Text(it.val)));
  }

  lemma TextSets(w: World, st: Stacks, it: Item)
    requires it.typ.StringItem?
    ensures ProcessItem(w, {}, false, st, it) == Setting(st, Ok(Text(it.val)))
  {
    hide SetValue;
  }

  lemma LexSpelled(before: seq<Field>, f: Field, ss: seq<Spelling>)
    requires FieldsOk(before) && FieldOk(f) && AllOk(ss)
    ensures Bared(Lex(RenderFields(before) + TextField(f, "\"" + (SpellAll(ss) + "\""))))
            == ItemsBefore(before, f) + ([Bare(StringItem, MeantAll(ss))] + [Bare(EofItem, "")])
  {
    hide FieldsOk, RenderFields, TextField, SpellAll, MeantAll, ItemsBefore, At, Sends, Run, Bared;
    var text, it := "\"" + (SpellAll(ss) + "\""), Bare(StringItem, MeantAll(ss));
    assert text[0] == '"' && text + [f.end] == "\"" + (SpellAll(ss) + ("\"" + [f.end]));
    var lx := EnterLast(before, f, text);
    var lx' := ReadSpelled(lx, TopValueEnd, Empty, ss, [f.end]);
    LeaveLast(Begin(RenderFields(before) + TextField(f, text)), ItemsBefore(before, f), lx, it, lx', f.end);
  }

  // ---------- Decimals, addresses and dates ----------

  predicate Digits(ds: string) { ds != "" && forall i :: 0 <= i < |ds| ==> IsDigit(ds[i]) }

  function Signed(neg: bool, ds: string): string { (if neg then "-" else "") + ds }

  /** From one state to another within a number, over the text read. */
  predicate ReadsOn(lx: Lexer, text: string, lx': Lexer) {
    lx'.start == lx.start && lx'.input == lx.input && lx'.pos == lx.pos + |text| && Sends(lx, [], lx')
  }

  lemma ReadsOnThen(a: Lexer, s: string, b: Lexer, t: string, c: Lexer)
    requires ReadsOn(a, s, b) && ReadsOn(b, t, c)
    ensures ReadsOn(a, s + t, c)
  {
    hide Sends;
    SendsThen(a, [], b, [], c);
  }

  /** A sign and digits, with leading zeros or without. */
  lemma ReadSigned(lx: Lexer, k: Stack, neg: bool, ds: string, rest: string) returns (lx': Lexer)
    requires At(lx, Value, k, Signed(neg, ds) + rest) && Digits(ds)
    ensures At(lx', if neg then NegNumber else Number, k, rest) && ReadsOn(lx, Signed(neg, ds), lx')
  {
    hide At, Sends;
    var tail := ds[1..] + rest;
    assert ds + rest == [ds[0]] + tail;
    assert Signed(neg, ds) + rest == if neg then ['-'] + (ds + rest) else [ds[0]] + tail;
    var a := EnterNumber(lx, k, if neg then '-' else ds[0], if neg then ds + rest else tail);
    var b := FirstDigit(a, neg, k, ds[0], tail);
    lx' := MoreDigits(b, if neg then NegNumber else Number, k, ds[1..], rest);
    SendsThen(lx, [], a, [], b);
    SendsThen(lx, [], b, [], lx');
  }

  lemma PointGoes(lx: Lexer)
    requires Good(lx) && (NumberState(lx.state) || lx.state.Float?) && Rune(lx) == '.' && RoleOf(lx.state).ScalarRole?
    ensures Step(lx) == Stepped(Next(lx).(state := if lx.state.Float? then IPAddr else FloatStart), [])
  {
    hide Good, Keeps, RoleOf, Rank, Next, Peeked, Ignore, Emitted, SendValue;
  }

  lemma ReadPoint(lx: Lexer, s: State, k: Stack, rest: string) returns (lx': Lexer)
    requires At(lx, s, k, "." + rest) && (NumberState(s) || s.Float?)
    ensures At(lx', if s.Float? then IPAddr else FloatStart, k, rest) && ReadsOn(lx, ".", lx')
  {
    hide Good, Run, Sends, Next, Peeked, Ignore, Keeps, RoleOf, Rank;
    UnreadNext(lx, '.', rest);
    ScalarState(lx.state);
    PointGoes(lx);
    hide Step;
    lx' := OneStep(lx);
  }

  lemma FractionGoes(lx: Lexer)
    requires Good(lx) && (lx.state.FloatStart? || lx.state.Float?) && IsDigit(Rune(lx)) && RoleOf(lx.state).ScalarRole?
    ensures Step(lx) == Stepped(Next(lx).(state := Float), [])
  {
    hide Good, Keeps, RoleOf, Rank, Next, Peeked, Ignore, Emitted, SendValue;
  }

  lemma FractionDigit(lx: Lexer, s: State, k: Stack, c: char, rest: string) returns (lx': Lexer)
    requires At(lx, s, k, [c] + rest) && (s.FloatStart? || s.Float?) && IsDigit(c)
    ensures At(lx', Float, k, rest) && ReadsOn(lx, [c], lx')
  {
    hide Good, Run, Sends, Next, Peeked, Ignore, Keeps, RoleOf, Rank;
    UnreadNext(lx, c, rest);
    ScalarState(lx.state);
    FractionGoes(lx);
    hide Step;
    lx' := OneStep(lx);
  }

  lemma {:induction false} ReadFraction(lx: Lexer, s: State, k: Stack, ds: string, rest: string) returns (lx': Lexer)
    requires At(lx, s, k, ds + rest) && (s.FloatStart? || s.Float?) && Digits(ds)
    ensures At(lx', Float, k, rest) && ReadsOn(lx, ds, lx')
    decreases |ds|
  {
    hide At, Sends;
    assert ds + rest == [ds[0]] + (ds[1..] + rest) && [ds[0]] + ds[1..] == ds;
    lx' := FractionDigit(lx, s, k, ds[0], ds[1..] + rest);
    if |ds| == 1 {
      assert ds[1..] + rest == rest && ds == [ds[0]];
    } else {
      var mid := lx';
      lx' := ReadFraction(mid, Float, k, ds[1..], rest);
      ReadsOnThen(lx, [ds[0]], mid, ds[1..], lx');
    }
  }

  predicate AddressRune(c: char) { IsDigit(c) || c == '.' || c == ':' || c == '-' }

  predicate AddressRunes(s: string) { forall i :: 0 <= i < |s| ==> AddressRune(s[i]) }

  lemma AddressGoes(lx: Lexer)
    requires Good(lx) && lx.state.IPAddr? && AddressRune(Rune(lx)) && RoleOf(lx.state).ScalarRole?
    ensures Step(lx) == Stepped(Next(lx), [])
  {
    hide Good, Keeps, RoleOf, Rank, Next, Peeked, Ignore, Emitted, SendValue;
  }

  lemma ReadAddressRune(lx: Lexer, k: Stack, c: char, rest: string) returns (lx': Lexer)
    requires At(lx, IPAddr, k, [c] + rest) && AddressRune(c)
    ensures At(lx', IPAddr, k, rest) && ReadsOn(lx, [c], lx')
  {
    hide Good, Run, Sends, Next, Peeked, Ignore, Keeps, RoleOf, Rank, AddressRune;
    UnreadNext(lx, c, rest);
    ScalarState(lx.state);
    AddressGoes(lx);
    hide Step;
    lx' := OneStep(lx);
  }

  lemma {:induction false} ReadAddressRunes(lx: Lexer, k: Stack, s: string, rest: string) returns (lx': Lexer)
    requires At(lx, IPAddr, k, s + rest) && AddressRunes(s)
    ensures At(lx', IPAddr, k, rest) && ReadsOn(lx, s, lx')
    decreases |s|
  {
    hide At, Sends, AddressRune;
    if s == "" {
      lx' := lx;
      assert s + rest == rest;
      SendsNothing(lx, IPAddr, k, rest);
    } else {
      assert s + rest == [s[0]] + (s[1..] + rest) && [s[0]] + s[1..] == s;
      var mid := ReadAddressRune(lx, k, s[0], s[1..] + rest);
      lx' := ReadAddressRunes(mid, k, s[1..], rest);
      ReadsOnThen(lx, [s[0]], mid, s[1..], lx');
    }
  }

  lemma DecimalEnds(lx: Lexer)
    requires Good(lx) && lx.state.Float? && (EndsRune(Rune(lx)) || Rune(lx) == ']') && RoleOf(lx.state).ScalarRole?
    ensures Step(lx) == SendValue(lx, Ignore(Peeked(lx)), Emitted(Peeked(lx), FloatItem))
  {
    hide Good, Keeps, RoleOf, Rank, Next, Peeked, Ignore, Emitted, SendValue;
  }

  lemma AddressEnds(lx: Lexer)
    requires Good(lx) && lx.state.IPAddr? && (EndsRune(Rune(lx)) || Rune(lx) == ']') && RoleOf(lx.state).ScalarRole?
    ensures Step(lx) == SendValue(lx, Ignore(Peeked(lx)), Emitted(Peeked(lx), StringItem))
  {
    hide Good, Keeps, RoleOf, Rank, Next, Peeked, Ignore, Emitted, SendValue;
  }

  lemma EndPointed(lx: Lexer, s: State, ret: State, k: Stack, text: string, rest: string) returns (lx': Lexer)
    requires At(lx, s, On(ret, k), rest) && (s.Float? || s.IPAddr?) && EndsBy(rest, true) && lx.input[lx.start..lx.pos] == text
    ensures At(lx', ret, k, rest) && Sends(lx, [Bare(if s.Float? then FloatItem else StringItem, text)], lx')
  {
    hide Good, Run, Sends, Next, Peeked, Ignore, Keeps, RoleOf, Rank;
    RuneAhead(lx, rest);
    UnreadPeeked(lx);
    assert Join([]) + text == text;
    ScalarState(lx.state);
    if s.Float? { DecimalEnds(lx); } else { AddressEnds(lx); }
    hide Step;
    lx' := OneStep(lx);
  }

  /** A number with a point in it. */
  function PointText(neg: bool, ds: string, fs: string): string { Signed(neg, ds) + ("." + fs) }

  lemma ReadPointed(lx: Lexer, k: Stack, neg: bool, ds: string, fs: string, rest: string) returns (lx': Lexer)
    requires At(lx, Value, k, PointText(neg, ds, fs) + rest) && Digits(ds) && Digits(fs)
    ensures At(lx', Float, k, rest) && ReadsOn(lx, PointText(neg, ds, fs), lx')
  {
    hide At, Sends, Digits, Signed, ReadsOn;
    assert PointText(neg, ds, fs) + rest == Signed(neg, ds) + ("." + (fs + rest));
    var a := ReadSigned(lx, k, neg, ds, "." + (fs + rest));
    var b := ReadPoint(a, if neg then NegNumber else Number, k, fs + rest);
    lx' := ReadFraction(b, FloatStart, k, fs, rest);
    ReadsOnThen(a, ".", b, fs, lx');
    ReadsOnThen(lx, Signed(neg, ds), a, "." + fs, lx');
  }

  /** With one point it is a decimal. */
  lemma ReadDecimal(lx: Lexer, ret: State, k: Stack, neg: bool, ds: string, fs: string, rest: string) returns (lx': Lexer)
    requires At(lx, Value, On(ret, k), PointText(neg, ds, fs) + rest) && lx.start == lx.pos && EndsBy(rest, true)
    requires Digits(ds) && Digits(fs)
    ensures At(lx', ret, k, rest) && Sends(lx, [Bare(FloatItem, PointText(neg, ds, fs))], lx')
  {
    hide At, Sends, Digits, PointText;
    var text := PointText(neg, ds, fs);
    TextRead(lx, Value, On(ret, k), text, rest);
    var a := ReadPointed(lx, On(ret, k), neg, ds, fs, rest);
    lx' := EndPointed(a, Float, ret, k, text, rest);
    SendsThen(lx, [], a, [Bare(FloatItem, text)], lx');
    assert [] + [Bare(FloatItem, text)] == [Bare(FloatItem, text)];
  }

  function AddressText(neg: bool, ds: string, fs: string, more: string): string { PointText(neg, ds, fs) + ("." + more) }

  /** With a second point it is an address, which is a string; a port may follow. */
  lemma ReadAddress(lx: Lexer, ret: State, k: Stack, neg: bool, ds: string, fs: string, more: string, rest: string) returns (lx': Lexer)
    requires At(lx, Value, On(ret, k), AddressText(neg, ds, fs, more) + rest) && lx.start == lx.pos && EndsBy(rest, true)
    requires Digits(ds) && Digits(fs) && AddressRunes(more)
    ensures At(lx', ret, k, rest) && Sends(lx, [Bare(StringItem, AddressText(neg, ds, fs, more))], lx')
  {
    hide At, Sends, Digits, PointText, AddressRunes;
    var text := AddressText(neg, ds, fs, more);
    TextRead(lx, Value, On(ret, k), text, rest);
    assert text + rest == PointText(neg, ds, fs) + ("." + (more + rest));
    var a := ReadPointed(lx, On(ret, k), neg, ds, fs, "." + (more + rest));
    var b := ReadPoint(a, Float, On(ret, k), more + rest);
    var c := ReadAddressRunes(b, On(ret, k), more, rest);
    ReadsOnThen(a, ".", b, more, c);
    ReadsOnThen(lx, PointText(neg, ds, fs), a, "." + more, c);
    lx' := EndPointed(c, IPAddr, ret, k, text, rest);
    SendsThen(lx, [], c, [Bare(StringItem, text)], lx');
    assert [] + [Bare(StringItem, text)] == [Bare(StringItem, text)];
  }

  /** Month, day and time after a year and a dash. */
  predicate DateRest(s: string) {
    && |s| == 15 && IsDigit(s[0]) && IsDigit(s[1]) && s[2] == '-' && IsDigit(s[3]) && IsDigit(s[4]) && s[5] == 'T'
    && IsDigit(s[6]) && IsDigit(s[7]) && s[8] == ':' && IsDigit(s[9]) && IsDigit(s[10]) && s[11] == ':'
    && IsDigit(s[12]) && IsDigit(s[13]) && s[14] == 'Z'
  }

  lemma DateIsAhead(lx: Lexer, date: string, rest: string)
    requires Positioned(lx) && Unread(lx) == date + rest && DateRest(date)
    ensures DateAhead(lx)
  {
    forall i | 0 <= i < |DATE_FORMAT| ensures lx.input[lx.pos + i] == date[i] {
      assert Unread(lx)[i] == date[i];
    }
  }

  lemma DashGoes(lx: Lexer)
    requires Good(lx) && lx.state.Number? && Rune(lx) == '-' && Next(lx).pos - Next(lx).start == 5 && RoleOf(lx.state).ScalarRole?
    ensures Step(lx) == Stepped(Next(lx).(state := DateAfterYear), [])
  {
    hide Good, Keeps, RoleOf, Rank, Next, Peeked, Ignore, Emitted, SendValue;
  }

  lemma ReadDash(lx: Lexer, k: Stack, rest: string) returns (lx': Lexer)
    requires At(lx, Number, k, "-" + rest) && lx.pos - lx.start == 4
    ensures At(lx', DateAfterYear, k, rest) && ReadsOn(lx, "-", lx')
  {
    hide Good, Run, Sends, Peeked, Ignore, Keeps, RoleOf, Rank;
    UnreadNext(lx, '-', rest);
    ScalarState(lx.state);
    DashGoes(lx);
    hide Step;
    lx' := OneStep(lx);
  }

  lemma DateEnds(lx: Lexer)
    requires Good(lx) && lx.state.DateAfterYear? && DateAhead(lx) && RoleOf(lx.state).ScalarRole?
    ensures var n := lx.(pos := lx.pos + 15, width := 1);
            Step(lx) == SendValue(lx, Ignore(n), Emitted(n, DatetimeItem))
  {
    hide Good, Keeps, RoleOf, Rank, Next, Peeked, Ignore, Emitted, SendValue, DateAhead;
  }

  lemma ReadDateRest(lx: Lexer, ret: State, k: Stack, date: string, text: string, rest: string) returns (lx': Lexer)
    requires At(lx, DateAfterYear, On(ret, k), date + rest) && DateRest(date)
    requires lx.pos + 15 <= |lx.input| && lx.input[lx.start..lx.pos + 15] == text
    ensures At(lx', ret, k, rest) && Sends(lx, [Bare(DatetimeItem, text)], lx')
  {
    hide Good, Sends, Keeps, RoleOf, Rank, DateAhead, DateRest;
    DateIsAhead(lx, date, rest);
    assert |date| == 15 by { DateLength(date); }
    assert lx.input[lx.pos + 15..] == Unread(lx)[15..] == rest;
    lx' := EndDate(lx, ret, k, text, rest);
  }

  lemma DateLength(date: string)
    requires DateRest(date)
    ensures |date| == 15
  {
  }

  lemma EndDate(lx: Lexer, ret: State, k: Stack, text: string, rest: string) returns (lx': Lexer)
    requires Positioned(lx) && At(lx, DateAfterYear, On(ret, k), Unread(lx)) && DateAhead(lx)
    requires lx.pos + 15 <= |lx.input| && lx.input[lx.start..lx.pos + 15] == text && lx.input[lx.pos + 15..] == rest
    ensures At(lx', ret, k, rest) && Sends(lx, [Bare(DatetimeItem, text)], lx')
  {
    hide Good, Run, Sends, Next, Peeked, Keeps, RoleOf, Rank, DateAhead;
    assert Join([]) + text == text;
    ScalarState(lx.state);
    DateEnds(lx);
    hide Step;
    lx' := OneStep(lx);
  }

  function DateText(year: string, date: string): string { year + ("-" + date) }

  /** Four digits and a dash begin a date. */
  lemma ReadDate(lx: Lexer, ret: State, k: Stack, year: string, date: string, rest: string) returns (lx': Lexer)
    requires At(lx, Value, On(ret, k), DateText(year, date) + rest) && lx.start == lx.pos
    requires Digits(year) && |year| == 4 && DateRest(date)
    ensures At(lx', ret, k, rest) && Sends(lx, [Bare(DatetimeItem, DateText(year, date))], lx')
  {
    hide At, Sends, Digits;
    var text := DateText(year, date);
    TextRead(lx, Value, On(ret, k), text, rest);
    assert text + rest == Signed(false, year) + ("-" + (date + rest)) && Signed(false, year) == year;
    var a := ReadSigned(lx, On(ret, k), false, year, "-" + (date + rest));
    var b := ReadDash(a, On(ret, k), date + rest);
    ReadsOnThen(lx, year, a, "-", b);
    lx' := ReadDateRest(b, ret, k, date, text, rest);
    SendsThen(lx, [], b, [Bare(DatetimeItem, text)], lx');
    assert [] + [Bare(DatetimeItem, text)] == [Bare(DatetimeItem, text)];
  }

  lemma LexDecimal(before: seq<Field>, f: Field, neg: bool, ds: string, fs: string)
    requires FieldsOk(before) && FieldOk(f) && Digits(ds) && Digits(fs)
    ensures Bared(Lex(RenderFields(before) + TextField(f, PointText(neg, ds, fs))))
            == ItemsBefore(before, f) + ([Bare(FloatItem, PointText(neg, ds, fs))] + [Bare(EofItem, "")])
  {
    var text, it := PointText(neg, ds, fs), Bare(FloatItem, PointText(neg, ds, fs));
    assert StartsValue(text[0]) && EndsBy([f.end], true);
    hide FieldsOk, RenderFields, TextField, PointText, ItemsBefore, At, Sends, Run, Bared, Digits, StartsValue, EndsBy;
    var lx := EnterLast(before, f, text);
    var lx' := ReadDecimal(lx, TopValueEnd, Empty, neg, ds, fs, [f.end]);
    LeaveLast(Begin(RenderFields(before) + TextField(f, text)), ItemsBefore(before, f), lx, it, lx', f.end);
  }

  /** A number with a point is a decimal, if the library can read it. */
  lemma DecimalIsParsed(w: World, before: seq<Field>, f: Field, neg: bool, ds: string, fs: string)
    requires FieldsOk(before) && FieldOk(f) && Digits(ds) && Digits(fs)
    ensures var text := PointText(neg, ds, fs);
            Parse(w, false, RenderFields(before) + TextField(f, text))
            == if w.floatOk(text) then Ok(DenoteFields(map[], before)[f.key := Decimal(text)]) else Err
  {
    hide DenoteFields, FieldsOk, FieldOk, RenderFields, TextField, PointText, ItemsBefore, Lex, Bared, Parse, SetValue, ProcessItem, Digits;
    var text := PointText(neg, ds, fs);
    LexDecimal(before, f, neg, ds, fs);
    DecimalSets(w, Stacks([MapCtx(DenoteFields(map[], before))], [f.key], []), text);
    LastIsParsed(w, before, f, text, Bare(FloatItem, text), if w.floatOk(text) then Ok(Decimal(text)) else Err);
  }

  lemma DecimalSets(w: World, st: Stacks, text: string)
    ensures ProcessItem(w, {}, false, st, Bare(FloatItem, text)) == Setting(st, if w.floatOk(text) then Ok(Decimal(text)) else Err)
    ensures ProcessItem(w, {}, false, st, Bare(DatetimeItem, text)) == Setting(st, if w.dateOk(text) then Ok(Moment(text)) else Err)
  {
    hide SetValue;
  }

  lemma LexAddress(before: seq<Field>, f: Field, neg: bool, ds: string, fs: string, more: string)
    requires FieldsOk(before) && FieldOk(f) && Digits(ds) && Digits(fs) && AddressRunes(more)
    ensures Bared(Lex(RenderFields(before) + TextField(f, AddressText(neg, ds, fs, more))))
            == ItemsBefore(before, f) + ([Bare(StringItem, AddressText(neg, ds, fs, more))] + [Bare(EofItem, "")])
  {
    var text, it := AddressText(neg, ds, fs, more), Bare(StringItem, AddressText(neg, ds, fs, more));
    assert StartsValue(text[0]) && EndsBy([f.end], true);
    hide FieldsOk, RenderFields, TextField, AddressText, ItemsBefore, At, Sends, Run, Bared, Digits, StartsValue, EndsBy, AddressRunes;
    var lx := EnterLast(before, f, text);
    var lx' := ReadAddress(lx, TopValueEnd, Empty, neg, ds, fs, more, [f.end]);
    LeaveLast(Begin(RenderFields(before) + TextField(f, text)), ItemsBefore(before, f), lx, it, lx', f.end);
  }

  /** With a second point it is a string, an address with a port as a rule. */
  lemma AddressIsParsed(w: World, before: seq<Field>, f: Field, neg: bool, ds: string, fs: string, more: string)
    requires FieldsOk(before) && FieldOk(f) && Digits(ds) && Digits(fs) && AddressRunes(more)
    ensures var text := AddressText(neg, ds, fs, more);
            Parse(w, false, RenderFields(before) + TextField(f, text)) == Ok(DenoteFields(map[], before)[f.key := Text(text)])
  {
    hide DenoteFields, FieldsOk, FieldOk, RenderFields, TextField, AddressText, ItemsBefore, Lex, Bared, Parse, SetValue, ProcessItem, Digits,
      AddressRunes;
    var text := AddressText(neg, ds, fs, more);
    LexAddress(before, f, neg, ds, fs, more);
    TextSets(w, Stacks([MapCtx(DenoteFields(map[], before))], [f.key], []), Bare(StringItem, text));
    LastIsParsed(w, before, f, text, Bare(StringItem, text), Ok(Text(text)));
  }

  lemma LexDate(before: seq<Field>, f: Field, year: string, date: string)
    requires FieldsOk(before) && FieldOk(f) && Digits(year) && |year| == 4 && DateRest(date)
    ensures Bared(Lex(RenderFields(before) + TextField(f, DateText(year, date))))
            == ItemsBefore(before, f) + ([Bare(DatetimeItem, DateText(year, date))] + [Bare(EofItem, "")])
  {
    var text, it := DateText(year, date), Bare(DatetimeItem, DateText(year, date));
    assert StartsValue(text[0]);
    hide FieldsOk, RenderFields, TextField, DateText, ItemsBefore, At, Sends, Run, Bared, Digits, StartsValue, DateRest;
    var lx := EnterLast(before, f, text);
    var lx' := ReadDate(lx, TopValueEnd, Empty, year, date, [f.end]);
    LeaveLast(Begin(RenderFields(before) + TextField(f, text)), ItemsBefore(before, f), lx, it, lx', f.end);
  }

  /** A date and time of day in Zulu form, if the library can read it. */
  lemma DateIsParsed(w: World, before: seq<Field>, f: Field, year: string, date: string)
    requires FieldsOk(before) && FieldOk(f) && Digits(year) && |year| == 4 && DateRest(date)
    ensures var text := DateText(year, date);
            Parse(w, false, RenderFields(before) + TextField(f, text))
            == if w.dateOk(text) then Ok(DenoteFields(map[], before)[f.key := Moment(text)]) else Err
  {
    hide DenoteFields, FieldsOk, FieldOk, RenderFields, TextField, DateText, ItemsBefore, Lex, Bared, Parse, SetValue, ProcessItem, Digits, DateRest;
    var text := DateText(year, date);
    LexDate(before, f, year, date);
    DecimalSets(w, Stacks([MapCtx(DenoteFields(map[], before))], [f.key], []), text);
    LastIsParsed(w, before, f, text, Bare(DatetimeItem, text), if w.dateOk(text) then Ok(Moment(text)) else Err);
  }
}
