/** Including a file means what writing its fields in its place would mean. */
module ConfIncludes {
  import opened Ascii
  import opened ConfLexer
  import opened ConfParser
  import opened ConfRebuild
  import opened ConfText

  // ---------- The text of an include ----------

  /** The keyword in either case, a space, the path and the end of the statement. */
  datatype Include = Include(word: string, path: string, quote: Quote, end: char)

  predicate PathRuneOk(c: char) { !IsNL(c) && c != EOF && c != ';' && c != '}' && !IsWhitespace(c) && c != '\'' }

  /** Runes that no unquoted path starts with. */
  predicate NoPathStart(c: char) {
    c == '"' || c == '[' || c == '{' || c == '(' || c == '-' || c == '\\' || IsDigit(c)
  }

  predicate IncludeOk(inc: Include) {
    && Lower(inc.word) == "include" && EndOk(inc.end)
    && if inc.quote.Unquoted? then
         && inc.path != "" && !NoPathStart(inc.path[0]) && inc.end != ','
         && forall i :: 0 <= i < |inc.path| ==> PathRuneOk(inc.path[i])
       else QuotedOk(inc.path, inc.quote)
  }

  function PathText(inc: Include): string { KeyText(inc.path, inc.quote) }

  function IncludeText(inc: Include): string { inc.word + (" " + (PathText(inc) + [inc.end])) }

  lemma IncludeWord(word: string)
    requires Lower(word) == "include"
    ensures |word| == 7 && Letter(word[0]) && forall i :: 0 <= i < |word| ==> KeyRuneOk(word[i])
  {
    forall i | 0 <= i < |word| ensures KeyRuneOk(word[i]) && Letter(word[i]) {
      assert Lower(word)[i] == "include"[i];
    }
  }

  // ---------- Reading it ----------

  lemma KeywordGoes(lx: Lexer)
    requires Positioned(lx) && Good(lx) && lx.state.Key? && Rune(lx) == ' ' && lx.parts == []
    requires Lower(Peeked(lx).input[Peeked(lx).start..Peeked(lx).pos]) == "include"
    ensures Step(lx) == Stepped(Ignore(Peeked(lx)).(state := IncludeStart), [])
  {
    hide Good, Keeps, RoleOf, Rank, Next, Emitted, Lower;
  }

  lemma Keyword(lx: Lexer, k: Stack, word: string, rest: string) returns (lx': Lexer)
    requires At(lx, Key, k, " " + rest) && lx.input[lx.start..lx.pos] == word && Lower(word) == "include"
    ensures At(lx', IncludeStart, k, " " + rest) && Sends(lx, [], lx')
  {
    hide Good, Run, Sends, Next, Peeked, Keeps, RoleOf, Rank, Lower;
    UnreadNext(lx, ' ', rest);
    UnreadPeeked(lx);
    KeywordGoes(lx);
    hide Step;
    lx' := OneStep(lx);
  }

  lemma ReadWord(lx: Lexer, k: Stack, word: string, rest: string) returns (lx': Lexer)
    requires At(lx, KeyStart, k, word + (" " + rest)) && Lower(word) == "include"
    ensures At(lx', IncludeStart, k, " " + rest) && Sends(lx, [], lx')
  {
    IncludeWord(word);
    hide At, Sends, KeyRuneOk, Lower;
    TextRead(lx, KeyStart, k, word, " " + rest);
    assert word + (" " + rest) == [word[0]] + (word[1..] + (" " + rest));
    var a := OpenPlainKey(lx, true, k, word[0], word[1..] + (" " + rest));
    var b := PlainKeyRunes(a, true, k, word[1..], " " + rest);
    lx' := Keyword(b, k, word, rest);
    SendsThen(lx, [], a, [], b);
    SendsThen(lx, [], b, [], lx');
  }

  lemma SkipBlank(lx: Lexer, k: Stack, rest: string) returns (lx': Lexer)
    requires At(lx, IncludeStart, k, " " + rest)
    ensures At(lx', IncludeStart, k, rest) && lx'.start == lx'.pos && Sends(lx, [], lx')
  {
    hide Good, Run, Sends, Next, Peeked, Ignore, Keeps, RoleOf, Rank;
    UnreadNext(lx, ' ', rest);
    var skip := OneStep(lx);
    lx' := AfterSkip(lx, [], skip, IncludeStart, k, rest);
  }

  lemma BeginPath(lx: Lexer, k: Stack, c: char, rest: string) returns (lx': Lexer)
    requires At(lx, IncludeStart, k, [c] + rest) && !IsWhitespace(c) && lx.start == lx.pos
    ensures At(lx', ConfLexer.Include, k, [c] + rest) && lx'.start == lx'.pos && Sends(lx, [], lx')
  {
    hide Good, Run, Sends, Next, Peeked, Ignore, Keeps, RoleOf, Rank;
    UnreadNext(lx, c, rest);
    UnreadPeeked(lx);
    lx' := OneStep(lx);
  }

  function PathState(q: Quote): State {
    if q.Unquoted? then IncludeString else if q.Single? then IncludeQuotedString else IncludeDubQuotedString
  }

  lemma OpenQuotedPath(lx: Lexer, q: Quote, k: Stack, rest: string) returns (lx': Lexer)
    requires At(lx, ConfLexer.Include, k, [QuoteRune(q)] + rest) && !q.Unquoted?
    ensures At(lx', PathState(q), k, rest) && lx'.start == lx'.pos && Sends(lx, [], lx')
  {
    hide Good, Run, Sends, Next, Peeked, Ignore, Keeps, RoleOf, Rank;
    UnreadNext(lx, QuoteRune(q), rest);
    lx' := OneStep(lx);
  }

  lemma OpenPlainPath(lx: Lexer, k: Stack, c: char, rest: string) returns (lx': Lexer)
    requires At(lx, ConfLexer.Include, k, [c] + rest) && PathRuneOk(c) && !NoPathStart(c) && lx.start == lx.pos
    ensures At(lx', IncludeString, k, [c] + rest) && lx'.start == lx'.pos && Sends(lx, [], lx')
  {
    hide Good, Run, Sends, Next, Peeked, Ignore, Keeps, RoleOf, Rank;
    UnreadNext(lx, c, rest);
    UnreadPeeked(lx);
    lx' := OneStep(lx);
  }

  predicate GoesOn(c: char, q: Quote) { if q.Unquoted? then PathRuneOk(c) else c != QuoteRune(q) && c != EOF }

  lemma PathGoes(lx: Lexer, q: Quote)
    requires Good(lx) && lx.state == PathState(q) && GoesOn(Rune(lx), q) && RoleOf(lx.state).IncludeRole?
    ensures Step(lx) == Stepped(Next(lx), [])
  {
    hide Good, Keeps, RoleOf, Rank, Next, Peeked, Ignore, Emitted, SendInclude;
  }

  lemma PathRune(lx: Lexer, q: Quote, k: Stack, c: char, rest: string) returns (lx': Lexer)
    requires At(lx, PathState(q), k, [c] + rest) && GoesOn(c, q)
    ensures At(lx', PathState(q), k, rest) && lx'.start == lx.start && lx'.input == lx.input && lx'.pos == lx.pos + 1
    ensures Sends(lx, [], lx')
  {
    hide Good, Run, Sends, Next, Peeked, Ignore, Keeps, RoleOf, Rank, GoesOn;
    UnreadNext(lx, c, rest);
    IncludeState(lx.state);
    PathGoes(lx, q);
    hide Step;
    lx' := OneStep(lx);
  }

  lemma {:induction false} PathRunes(lx: Lexer, q: Quote, k: Stack, path: string, rest: string) returns (lx': Lexer)
    requires At(lx, PathState(q), k, path + rest) && forall i :: 0 <= i < |path| ==> GoesOn(path[i], q)
    ensures At(lx', PathState(q), k, rest) && lx'.start == lx.start && lx'.input == lx.input && lx'.pos == lx.pos + |path|
    ensures Sends(lx, [], lx')
    decreases |path|
  {
    hide At, Sends, GoesOn;
    if path == "" {
      lx' := lx;
      assert path + rest == rest;
      SendsNothing(lx, PathState(q), k, rest);
    } else {
      assert path + rest == [path[0]] + (path[1..] + rest);
      var mid := PathRune(lx, q, k, path[0], path[1..] + rest);
      lx' := PathRunes(mid, q, k, path[1..], rest);
      SendsThen(lx, [], mid, [], lx');
    }
  }

  lemma QuotedPathEnds(lx: Lexer, q: Quote)
    requires Positioned(lx) && Good(lx) && !q.Unquoted? && lx.state == PathState(q) && Rune(lx) == QuoteRune(q)
    requires lx.parts == [] && RoleOf(lx.state).IncludeRole?
    ensures var b := Peeked(lx);
            lx.pos < Next(Ignore(b)).pos && Step(lx) == SendInclude(lx, Ignore(Next(Ignore(b))), Emitted(b, IncludeItem))
  {
    hide Good, Keeps, RoleOf, Rank, Emitted, SendInclude;
  }

  lemma CloseQuotedPath(lx: Lexer, q: Quote, ret: State, k: Stack, path: string, rest: string) returns (lx': Lexer)
    requires At(lx, PathState(q), On(ret, k), [QuoteRune(q)] + rest) && !q.Unquoted? && lx.input[lx.start..lx.pos] == path
    ensures At(lx', ret, k, rest) && Sends(lx, [Bare(IncludeItem, path)], lx')
  {
    hide Good, Run, Sends, Next, Peeked, Ignore, Keeps, RoleOf, Rank;
    UnreadNext(lx, QuoteRune(q), rest);
    UnreadPeeked(lx);
    assert Join([]) + path == path;
    IncludeState(lx.state);
    QuotedPathEnds(lx, q);
    hide Step;
    lx' := OneStep(lx);
  }

  lemma PlainPathEnds(lx: Lexer)
    requires Good(lx) && lx.state.IncludeString? && (Rune(lx) == ';' || Rune(lx) == '\n') && lx.parts == [] && RoleOf(lx.state).IncludeRole?
    ensures Step(lx) == SendInclude(lx, Ignore(Peeked(lx)), Emitted(Peeked(lx), IncludeItem))
  {
    hide Good, Keeps, RoleOf, Rank, Next, Peeked, Ignore, Emitted, SendInclude;
  }

  lemma ClosePlainPath(lx: Lexer, ret: State, k: Stack, path: string, c: char, rest: string) returns (lx': Lexer)
    requires At(lx, IncludeString, On(ret, k), [c] + rest) && (c == ';' || c == '\n') && lx.input[lx.start..lx.pos] == path
    ensures At(lx', ret, k, [c] + rest) && Sends(lx, [Bare(IncludeItem, path)], lx')
  {
    hide Good, Run, Sends, Next, Peeked, Ignore, Keeps, RoleOf, Rank;
    UnreadNext(lx, c, rest);
    UnreadPeeked(lx);
    assert Join([]) + path == path;
    IncludeState(lx.state);
    PlainPathEnds(lx);
    hide Step;
    lx' := OneStep(lx);
  }

  lemma ReadQuotedPath(lx: Lexer, ret: State, k: Stack, inc: Include, rest: string) returns (lx': Lexer)
    requires At(lx, IncludeStart, On(ret, k), PathText(inc) + rest) && IncludeOk(inc) && !inc.quote.Unquoted? && lx.start == lx.pos
    ensures At(lx', ret, k, rest) && Sends(lx, [Bare(IncludeItem, inc.path)], lx')
  {
    hide At, Sends, Lower;
    var q, tail := inc.quote, [QuoteRune(inc.quote)] + rest;
    assert PathText(inc) + rest == [QuoteRune(q)] + (inc.path + tail);
    var a := BeginPath(lx, On(ret, k), QuoteRune(q), inc.path + tail);
    var b := OpenQuotedPath(a, q, On(ret, k), inc.path + tail);
    TextRead(b, PathState(q), On(ret, k), inc.path, tail);
    var c := PathRunes(b, q, On(ret, k), inc.path, tail);
    lx' := CloseQuotedPath(c, q, ret, k, inc.path, rest);
    SendsThen(lx, [], a, [], b);
    SendsThen(lx, [], b, [], c);
    SendsThen(lx, [], c, [Bare(IncludeItem, inc.path)], lx');
    assert [] + [Bare(IncludeItem, inc.path)] == [Bare(IncludeItem, inc.path)];
  }

  lemma ReadPlainPath(lx: Lexer, ret: State, k: Stack, inc: Include, rest: string) returns (lx': Lexer)
    requires At(lx, IncludeStart, On(ret, k), PathText(inc) + ([inc.end] + rest)) && IncludeOk(inc) && inc.quote.Unquoted? && lx.start == lx.pos
    ensures At(lx', ret, k, [inc.end] + rest) && Sends(lx, [Bare(IncludeItem, inc.path)], lx')
  {
    hide At, Sends, Lower;
    var path, tail := inc.path, [inc.end] + rest;
    assert path + tail == [path[0]] + (path[1..] + tail);
    var a := BeginPath(lx, On(ret, k), path[0], path[1..] + tail);
    var b := OpenPlainPath(a, On(ret, k), path[0], path[1..] + tail);
    TextRead(b, IncludeString, On(ret, k), path, tail);
    var c := PathRunes(b, Unquoted, On(ret, k), path, tail);
    lx' := ClosePlainPath(c, ret, k, path, inc.end, rest);
    SendsThen(lx, [], a, [], b);
    SendsThen(lx, [], b, [], c);
    SendsThen(lx, [], c, [Bare(IncludeItem, path)], lx');
    assert [] + [Bare(IncludeItem, path)] == [Bare(IncludeItem, path)];
  }

  lemma ReadInclude(lx: Lexer, inc: Include, rest: string) returns (lx': Lexer)
    requires At(lx, Top, Empty, IncludeText(inc) + rest) && IncludeOk(inc)
    ensures At(lx', Top, Empty, rest) && lx'.start == lx'.pos && Sends(lx, [Bare(IncludeItem, inc.path)], lx')
  {
    hide At, Sends, Lower, PathText, IncludeOk, IncludeText;
    IncludeParts(inc, rest);
    var tail := PathText(inc) + ([inc.end] + rest);
    var all := inc.word + (" " + tail);
    var k := On(TopValueEnd, Empty);
    assert all == [all[0]] + all[1..] && all[0] == inc.word[0];
    var a := EnterTop(lx, all[0], all[1..]);
    var b := ReadWord(a, k, inc.word, tail);
    var c := SkipBlank(b, k, tail);
    var d := ReadPath(c, TopValueEnd, Empty, inc, rest);
    lx' := LeaveTop(d, inc.end, rest);
    SendsThen(lx, [], a, [], b);
    SendsThen(lx, [], b, [], c);
    SendsThen(lx, [], c, [Bare(IncludeItem, inc.path)], d);
    SendsThen(lx, [] + [Bare(IncludeItem, inc.path)], d, [], lx');
    assert [] + [Bare(IncludeItem, inc.path)] + [] == [Bare(IncludeItem, inc.path)];
  }

  lemma IncludeParts(inc: Include, rest: string)
    requires IncludeOk(inc)
    ensures inc.word != "" && Letter(inc.word[0]) && Lower(inc.word) == "include" && EndOk(inc.end)
    ensures IncludeText(inc) + rest == inc.word + (" " + (PathText(inc) + ([inc.end] + rest)))
  {
    hide Lower, PathText;
    IncludeWord(inc.word);
  }

  lemma ReadPath(lx: Lexer, ret: State, k: Stack, inc: Include, rest: string) returns (lx': Lexer)
    requires At(lx, IncludeStart, On(ret, k), PathText(inc) + ([inc.end] + rest)) && IncludeOk(inc) && lx.start == lx.pos
    ensures At(lx', ret, k, [inc.end] + rest) && Sends(lx, [Bare(IncludeItem, inc.path)], lx')
  {
    hide At, Sends, PathText, IncludeOk;
    if inc.quote.Unquoted? {
      lx' := ReadPlainPath(lx, ret, k, inc, rest);
    } else {
      lx' := ReadQuotedPath(lx, ret, k, inc, [inc.end] + rest);
    }
  }

  lemma LexIncluding(before: seq<Field>, inc: Include, after: seq<Field>)
    requires FieldsOk(before) && IncludeOk(inc) && FieldsOk(after)
    ensures Bared(Lex(RenderFields(before) + (IncludeText(inc) + RenderFields(after))))
            == FlattenFields(before) + ([Bare(IncludeItem, inc.path)] + (FlattenFields(after) + [Bare(EofItem, "")]))
  {
    hide RenderFields, FieldsOk, IncludeText, FlattenFields, IncludeOk, Sends, Run, Bared;
    var text := RenderFields(before) + (IncludeText(inc) + RenderFields(after));
    var lx := Begin(text);
    assert Unread(lx) == text;
    var a := ReadDocument(lx, before, IncludeText(inc) + RenderFields(after));
    hide At;
    var b := ReadInclude(a, inc, RenderFields(after));
    assert RenderFields(after) == RenderFields(after) + "";
    var c := ReadDocument(b, after, "");
    FinishTop(c);
    AtIsGood(c, Top, Empty, "");
    var item := [Bare(IncludeItem, inc.path)];
    SendsThen(a, item, b, FlattenFields(after), c);
    SendsThen(lx, FlattenFields(before), a, item + FlattenFields(after), c);
    SendsToEnd(lx, FlattenFields(before) + (item + FlattenFields(after)), c, [Bare(EofItem, "")]);
    assert FlattenFields(before) + (item + FlattenFields(after)) + [Bare(EofItem, "")]
        == FlattenFields(before) + (item + (FlattenFields(after) + [Bare(EofItem, "")]));
  }

  // ---------- What it sets ----------

  /** A listing of the entries of a map, in any order. */
  ghost predicate Lists(pairs: seq<(string, Value)>, m: map<string, Value>) {
    && (forall i :: 0 <= i < |pairs| ==> pairs[i].0 in m && m[pairs[i].0] == pairs[i].1)
    && (forall key :: key in m ==> exists i :: 0 <= i < |pairs| && pairs[i].0 == key)
  }

  function Restrict(m: map<string, Value>, keys: set<string>): map<string, Value> { map key | key in keys && key in m :: m[key] }

  /** Pairs that agree with `m` all set what `m` holds. */
  lemma {:induction false} IncludedSets(st: Stacks, acc: map<string, Value>, pairs: seq<(string, Value)>, m: map<string, Value>)
    requires forall i :: 0 <= i < |pairs| ==> pairs[i].0 in m && m[pairs[i].0] == pairs[i].1
    ensures var keys := set i | 0 <= i < |pairs| :: pairs[i].0;
            SetIncluded(false, PushContext(st, MapCtx(acc)), pairs)
            == Ok(PushContext(st, MapCtx(acc + Restrict(m, keys))))
    decreases |pairs|
  {
    hide SetValue;
    var keys := set i | 0 <= i < |pairs| :: pairs[i].0;
    if pairs == [] {
      assert acc + Restrict(m, keys) == acc;
    } else {
      var k, v, tail := pairs[0].0, pairs[0].1, pairs[1..];
      SetInTable(st, acc, k, v);
      assert forall i :: 0 <= i < |tail| ==> tail[i] == pairs[i + 1];
      IncludedSets(st, acc[k := v], tail, m);
      var rest := set i | 0 <= i < |tail| :: tail[i].0;
      KeysSplit(pairs, keys, rest);
      assert acc[k := v] + Restrict(m, rest) == acc + Restrict(m, keys);
    }
  }

  lemma KeysSplit(pairs: seq<(string, Value)>, keys: set<string>, rest: set<string>)
    requires pairs != [] && keys == (set i | 0 <= i < |pairs| :: pairs[i].0)
    requires var tail := pairs[1..]; rest == (set i | 0 <= i < |tail| :: tail[i].0)
    ensures keys == {pairs[0].0} + rest
  {
    var tail := pairs[1..];
    assert forall i :: 0 <= i < |tail| ==> tail[i] == pairs[i + 1];
    forall key | key in keys ensures key in {pairs[0].0} + rest {
      var i :| 0 <= i < |pairs| && pairs[i].0 == key;
      if i > 0 { assert tail[i - 1].0 == key; }
    }
  }

  lemma IncludeSets(w: World, m: map<string, Value>, path: string, pairs: seq<(string, Value)>, included: map<string, Value>)
    requires w.included(path, false) == Ok(pairs) && Lists(pairs, included)
    ensures ProcessItem(w, {}, false, Stacks([MapCtx(m)], [], []), Bare(IncludeItem, path)) == Ok(Stacks([MapCtx(m + included)], [], []))
  {
    hide SetValue, SetIncluded;
    var none := Stacks([], [], []);
    IncludedSets(none, m, pairs, included);
    assert forall x: map<string, Value> :: PushContext(none, MapCtx(x)) == Stacks([MapCtx(x)], [], []);
    var keys := set i | 0 <= i < |pairs| :: pairs[i].0;
    assert Restrict(included, keys) == included;
  }

  // ---------- Including is writing in place ----------

  lemma {:induction false} FieldsOver(m: map<string, Value>, fs: seq<Field>)
    ensures DenoteFields(m, fs) == m + DenoteFields(map[], fs)
    decreases |fs|
  {
    if fs == [] {
      assert m + map[] == m;
    } else {
      var k, v := fs[0].key, Denote(fs[0].value);
      FieldsOver(m[k := v], fs[1..]);
      FieldsOver(map[k := v], fs[1..]);
      assert map[][k := v] == map[k := v];
    }
  }

  lemma {:induction false} FieldsJoin(m: map<string, Value>, fs: seq<Field>, gs: seq<Field>)
    ensures DenoteFields(m, fs + gs) == DenoteFields(DenoteFields(m, fs), gs)
    decreases |fs|
  {
    if fs == [] {
      assert fs + gs == gs;
    } else {
      assert (fs + gs)[0] == fs[0] && (fs + gs)[1..] == fs[1..] + gs;
      FieldsJoin(m[fs[0].key := Denote(fs[0].value)], fs[1..], gs);
    }
  }

  /** Parsing a text with an include gives what parsing it with the fields of the file
      written in its place would give. */
  lemma IncludeIsWritingInPlace(w: World, before: seq<Field>, inc: Include, fs: seq<Field>, pairs: seq<(string, Value)>, after: seq<Field>)
    requires FieldsOk(before) && IncludeOk(inc) && FieldsOk(after)
    requires w.included(inc.path, false) == Ok(pairs) && Lists(pairs, DenoteFields(map[], fs))
    ensures Parse(w, false, RenderFields(before) + (IncludeText(inc) + RenderFields(after)))
            == Ok(DenoteFields(map[], before + fs + after))
  {
    hide RenderFields, FieldsOk, IncludeText, FlattenFields, IncludeOk, ProcessItems, ProcessItem, Lex, Bared, DenoteFields, Lists;
    var text := RenderFields(before) + (IncludeText(inc) + RenderFields(after));
    var item, eof := Bare(IncludeItem, inc.path), [Bare(EofItem, "")];
    LexIncluding(before, inc, after);
    PositionsDoNotMatter(w, {}, Root, false, Lex(text));
    FieldsFit(before);
    FieldsFit(after);
    var none, m, file := Stacks([], [], []), DenoteFields(map[], before), DenoteFields(map[], fs);
    RebuildsFields(w, {}, none, map[], before, [item] + (FlattenFields(after) + eof));
    assert forall x: map<string, Value> :: PushContext(none, MapCtx(x)) == Stacks([MapCtx(x)], [], []);
    ProcessFirst(w, {}, Stacks([MapCtx(m)], [], []), false, item, FlattenFields(after) + eof);
    IncludeSets(w, m, inc.path, pairs, file);
    RebuildsFields(w, {}, none, m + file, after, eof);
    FieldsOver(m, fs);
    FieldsJoin(map[], before, fs);
    FieldsJoin(map[], before + fs, after);
    EndOfItems(w, {}, Stacks([MapCtx(DenoteFields(m + file, after))], [], []));
  }

  /** So it is for files that are parsed in turn: the text and the file with their
      fields in one document. */
  lemma IncludedFileIsParsed(w: World, files: map<string, string>, listing: map<string, Value> -> seq<(string, Value)>, depth: nat,
                             before: seq<Field>, inc: Include, fs: seq<Field>, after: seq<Field>)
    requires FieldsOk(before) && IncludeOk(inc) && FieldsOk(fs) && FieldsOk(after)
    requires inc.path in files && files[inc.path] == RenderFields(fs) && Lists(listing(DenoteFields(map[], fs)), DenoteFields(map[], fs))
    ensures Parse(Including(w, files, listing, depth + 1), false, RenderFields(before) + (IncludeText(inc) + RenderFields(after)))
            == Ok(DenoteFields(map[], before + fs + after))
  {
    hide RenderFields, FieldsOk, IncludeText, IncludeOk, DenoteFields, Lists, ParseText;
    DocumentRoundTrip(Including(w, files, listing, depth), fs);
    IncludeIsWritingInPlace(Including(w, files, listing, depth + 1), before, inc, fs, listing(DenoteFields(map[], fs)), after);
  }
}
