/** The text of a map that ends in a key without a value. */
module ConfDangling {
  import opened ConfLexer
  import opened ConfParser
  import opened ConfRebuild
  import opened ConfText

  /** A quoted key and the end of its map. */
  function LastKey(key: string, q: Quote): string { KeyText(key, q) + "}" }

  /** The field `f`, with a map of the fields `fs` and a quoted key alone as its value. */
  function DanglingField(f: Field, fs: seq<Field>, key: string, q: Quote): string {
    NoteText(f.note) + (KeyText(f.key, f.quote) + ([f.sep] + ("{" + (RenderFields(fs) + (LastKey(key, q) + [f.end])))))
  }

  /** After a key the map may end. */
  lemma LeaveKey(lx: Lexer, k: Stack, rest: string) returns (lx': Lexer)
    requires At(lx, MapKeyEnd, k, "}" + rest)
    ensures At(lx', MapValue, k, "}" + rest) && Sends(lx, [], lx')
  {
    hide Good, Run, Sends, Next, Peeked, Ignore, Keeps, RoleOf, Rank;
    UnreadNext(lx, '}', rest);
    UnreadPeeked(lx);
    lx' := OneStep(lx);
  }

  lemma EndAtValue(lx: Lexer, k: Stack, rest: string) returns (lx': Lexer)
    requires At(lx, MapValue, k, "}" + rest)
    ensures At(lx', Skip(MapEnd), k, rest) && Sends(lx, [], lx')
  {
    hide Good, Run, Sends, Next, Peeked, Ignore, Keeps, RoleOf, Rank;
    UnreadNext(lx, '}', rest);
    lx' := OneStep(lx);
  }

  lemma EndAfterKey(lx: Lexer, ret: State, k: Stack, rest: string) returns (lx': Lexer)
    requires At(lx, MapKeyEnd, On(ret, k), "}" + rest)
    ensures At(lx', ret, k, rest) && Sends(lx, [Bare(MapEndItem, "")], lx')
  {
    hide At, Sends;
    var a := LeaveKey(lx, On(ret, k), rest);
    var b := EndAtValue(a, On(ret, k), rest);
    SendsThen(lx, [], a, [], b);
    var end := AfterSkip(lx, [] + [], b, MapEnd, On(ret, k), rest);
    lx' := EndObject(end, ret, k, rest);
    SendsThen(lx, [] + [], end, [Bare(MapEndItem, "")], lx');
    assert [] + [] + [Bare(MapEndItem, "")] == [Bare(MapEndItem, "")];
  }

  lemma ReadDangling(lx: Lexer, ret: State, k: Stack, key: string, q: Quote, rest: string) returns (lx': Lexer)
    requires At(lx, MapKeyStart, On(ret, k), LastKey(key, q) + rest) && QuotedOk(key, q) && !q.Unquoted?
    ensures At(lx', ret, k, rest) && Sends(lx, [Bare(KeyItem, key)] + [Bare(MapEndItem, "")], lx')
  {
    hide At, Sends, KeyText;
    assert LastKey(key, q) + rest == KeyText(key, q) + ("}" + rest);
    var a := ReadQuotedKey(lx, false, q, On(ret, k), key, "}" + rest);
    lx' := EndAfterKey(a, ret, k, rest);
    SendsThen(lx, [Bare(KeyItem, key)], a, [Bare(MapEndItem, "")], lx');
  }

  /** The items of the map alone. */
  function MapItems(fs: seq<Field>, key: string): seq<Item> {
    [Bare(MapStartItem, "")] + (FlattenFields(fs) + ([Bare(KeyItem, key)] + [Bare(MapEndItem, "")]))
  }

  lemma ReadMap(lx: Lexer, ret: State, k: Stack, fs: seq<Field>, key: string, q: Quote, rest: string) returns (lx': Lexer)
    requires At(lx, Value, On(ret, k), "{" + (RenderFields(fs) + (LastKey(key, q) + rest)))
    requires QuotedOk(key, q) && !q.Unquoted? && FieldsOk(fs)
    ensures At(lx', ret, k, rest) && Sends(lx, MapItems(fs, key), lx')
  {
    hide At, Sends, LastKey, RenderFields, FlattenFields, FieldsOk;
    var last := [Bare(KeyItem, key)] + [Bare(MapEndItem, "")];
    var a := OpenObject(lx, On(ret, k), RenderFields(fs) + (LastKey(key, q) + rest));
    var b := ReadFields(a, On(ret, k), fs, LastKey(key, q) + rest);
    lx' := ReadDangling(b, ret, k, key, q, rest);
    SendsThen(a, FlattenFields(fs), b, last, lx');
    SendsThen(lx, [Bare(MapStartItem, "")], a, FlattenFields(fs) + last, lx');
  }

  /** The field with its map, and the end of the text. */
  lemma ReadLastField(lx: Lexer, f: Field, fs: seq<Field>, key: string, q: Quote)
    requires At(lx, Top, Empty, DanglingField(f, fs, key, q)) && FieldOk(f) && QuotedOk(key, q) && !q.Unquoted? && FieldsOk(fs)
    ensures Good(lx) && Bared(Run(lx)) == NoteItems(f.note) + DanglingItems(f.key, key, fs)
  {
    hide At, Sends, Good, Run, Bared, LastKey, KeyText, RenderFields, MapItems, NoteText, NoteItems, FieldsOk, DanglingItems;
    var text := "{" + (RenderFields(fs) + (LastKey(key, q) + [f.end]));
    assert text[0] == '{';
    var n := ReadNote(lx, Top, Empty, f.note, KeyText(f.key, f.quote) + ([f.sep] + text));
    var a := ReadTopKey(n, f.key, f.quote, f.sep, text);
    var b := ReadMap(a, TopValueEnd, Empty, fs, key, q, [f.end]);
    assert [f.end] == [f.end] + "";
    var c := LeaveTop(b, f.end, "");
    FinishTop(c);
    AtIsGood(c, Top, Empty, "");
    LastSends(lx, f, fs, key, n, a, b, c);
  }

  lemma LastSends(lx: Lexer, f: Field, fs: seq<Field>, key: string, n: Lexer, a: Lexer, b: Lexer, c: Lexer)
    requires Sends(lx, NoteItems(f.note), n) && Sends(n, [Bare(KeyItem, f.key)], a) && Sends(a, MapItems(fs, key), b)
    requires Sends(b, [], c) && Good(c) && Bared(Run(c)) == [Bare(EofItem, "")]
    ensures Good(lx) && Bared(Run(lx)) == NoteItems(f.note) + DanglingItems(f.key, key, fs)
  {
    hide Sends, Good, Run, Bared, MapItems, NoteItems, DanglingItems;
    SendsThen(a, MapItems(fs, key), b, [], c);
    SendsThen(n, [Bare(KeyItem, f.key)], a, MapItems(fs, key) + [], c);
    SendsThen(lx, NoteItems(f.note), n, [Bare(KeyItem, f.key)] + (MapItems(fs, key) + []), c);
    SendsToEnd(lx, NoteItems(f.note) + ([Bare(KeyItem, f.key)] + (MapItems(fs, key) + [])), c, [Bare(EofItem, "")]);
    AllItems(f.key, fs, key);
    assert NoteItems(f.note) + ([Bare(KeyItem, f.key)] + (MapItems(fs, key) + [])) + [Bare(EofItem, "")]
        == NoteItems(f.note) + DanglingItems(f.key, key, fs);
  }

  lemma AllItems(outer: string, fs: seq<Field>, key: string)
    ensures [Bare(KeyItem, outer)] + (MapItems(fs, key) + []) + [Bare(EofItem, "")] == DanglingItems(outer, key, fs)
  {
    hide FlattenFields;
  }

  lemma LexDangling(before: seq<Field>, f: Field, fs: seq<Field>, key: string, q: Quote)
    requires FieldsOk(before) && FieldsOk(fs) && FieldOk(f) && QuotedOk(key, q) && !q.Unquoted?
    ensures Bared(Lex(RenderFields(before) + DanglingField(f, fs, key, q)))
            == FlattenFields(before) + (NoteItems(f.note) + DanglingItems(f.key, key, fs))
  {
    hide RenderFields, FieldsOk, FieldOk, DanglingField, DanglingItems, FlattenFields, NoteItems;
    var text := RenderFields(before) + DanglingField(f, fs, key, q);
    var lx := Begin(text);
    assert Unread(lx) == text;
    var mid := ReadDocument(lx, before, DanglingField(f, fs, key, q));
    ReadLastField(mid, f, fs, key, q);
  }

  /** Parsing such a text binds the map to the key inside it. Its own key holds it
      exactly when that is the same key, or it held the same before. */
  lemma DanglingTextIsParsed(w: World, before: seq<Field>, f: Field, fs: seq<Field>, key: string, q: Quote)
    requires FieldsOk(before) && FieldsOk(fs) && FieldOk(f) && QuotedOk(key, q) && !q.Unquoted?
    ensures var m, inner := DenoteFields(map[], before), Table(DenoteFields(map[], fs));
            && Parse(w, false, RenderFields(before) + DanglingField(f, fs, key, q)) == Ok(m[key := inner])
            && (Bound(m[key := inner], f.key, inner) <==> key == f.key || Bound(m, f.key, inner))
  {
    hide DenoteFields, FieldsOk, FieldOk, DanglingItems, RenderFields, DanglingField, FlattenFields, NoteItems, ProcessItems, Lex, Bared;
    var text, items := RenderFields(before) + DanglingField(f, fs, key, q), DanglingItems(f.key, key, fs);
    LexDangling(before, f, fs, key, q);
    PositionsDoNotMatter(w, {}, Root, false, Lex(text));
    FieldsFit(before);
    FieldsFit(fs);
    var none, m := Stacks([], [], []), DenoteFields(map[], before);
    RebuildsFields(w, {}, none, map[], before, NoteItems(f.note) + items);
    assert PushContext(none, MapCtx(map[])) == Root && PushContext(none, MapCtx(m)) == Stacks([MapCtx(m)], [], []);
    ProcessNote(w, {}, Stacks([MapCtx(m)], [], []), f.note, items);
    DanglingKeyTakesTheMap(w, {}, m, f.key, key, fs);
  }

  // ---------- A key at the end of the text ----------

  lemma ClosePlainKeyAtEnd(lx: Lexer, k: Stack, key: string) returns (lx': Lexer)
    requires At(lx, Key, k, "") && lx.input[lx.start..lx.pos] == key
    ensures At(lx', KeyEnd, k, "") && lx'.start == lx'.pos && Sends(lx, [Bare(KeyItem, key)], lx')
  {
    hide Good, Run, Sends, Next, Keeps, RoleOf, Rank;
    RuneAhead(lx, "");
    UnreadPeeked(lx);
    assert Join([]) + key == key;
    lx' := OneStep(lx);
  }

  lemma ReadPlainKeyAtEnd(lx: Lexer, k: Stack, key: string) returns (lx': Lexer)
    requires At(lx, KeyStart, k, key) && KeyOk(key, Unquoted, '=')
    ensures At(lx', KeyEnd, k, "") && lx'.start == lx'.pos && Sends(lx, [Bare(KeyItem, key)], lx')
  {
    hide At, Sends, KeyRuneOk;
    assert key == key + "" && key == [key[0]] + key[1..] && key[1..] == key[1..] + "";
    TextRead(lx, KeyStart, k, key, "");
    var a := OpenPlainKey(lx, true, k, key[0], key[1..]);
    var b := PlainKeyRunes(a, true, k, key[1..], "");
    lx' := ClosePlainKeyAtEnd(b, k, key);
    SendsThen(lx, [], a, [], b);
    SendsThen(lx, [], b, [Bare(KeyItem, key)], lx');
    assert [] + [Bare(KeyItem, key)] == [Bare(KeyItem, key)];
  }

  lemma FinishKey(lx: Lexer, k: Stack)
    requires At(lx, KeyEnd, k, "")
    ensures |Bared(Run(lx))| == 1 && Bared(Run(lx))[0].typ.EofItem?
  {
    hide Good, Next, Peeked, Ignore, Keeps;
    RuneAhead(lx, "");
    var done := OneStep(lx);
    assert done.state.Done? && Run(done) == [] && Bared([]) == [];
  }

  lemma ReadKeyAlone(lx: Lexer, key: string, q: Quote) returns (lx': Lexer)
    requires At(lx, Top, Empty, KeyText(key, q)) && KeyOk(key, q, '=')
    ensures At(lx', KeyEnd, On(TopValueEnd, Empty), "") && Sends(lx, [Bare(KeyItem, key)], lx')
  {
    var all, k := KeyText(key, q), On(TopValueEnd, Empty);
    assert all[0] == '"' || all[0] == '\'' || Letter(all[0]);
    hide At, Sends, KeyOk, KeyText;
    assert all == [all[0]] + all[1..] && all == all + "";
    var a := EnterTop(lx, all[0], all[1..]);
    lx' := ReadEitherKey(a, k, key, q);
    SendsThen(lx, [], a, [Bare(KeyItem, key)], lx');
    assert [] + [Bare(KeyItem, key)] == [Bare(KeyItem, key)];
  }

  lemma ReadEitherKey(lx: Lexer, k: Stack, key: string, q: Quote) returns (lx': Lexer)
    requires At(lx, KeyStart, k, KeyText(key, q)) && KeyOk(key, q, '=')
    ensures At(lx', KeyEnd, k, "") && Sends(lx, [Bare(KeyItem, key)], lx')
  {
    hide At, Sends, KeyRuneOk;
    if q.Unquoted? {
      lx' := ReadPlainKeyAtEnd(lx, k, key);
    } else {
      assert KeyText(key, q) + "" == KeyText(key, q);
      lx' := ReadQuotedKey(lx, true, q, k, key, "");
    }
  }

  lemma LexKeyAlone(before: seq<Field>, key: string, q: Quote) returns (end: seq<Item>)
    requires FieldsOk(before) && KeyOk(key, q, '=')
    ensures |end| == 1 && end[0].typ.EofItem?
    ensures Bared(Lex(RenderFields(before) + KeyText(key, q))) == FlattenFields(before) + ([Bare(KeyItem, key)] + end)
  {
    hide RenderFields, FieldsOk, KeyText, KeyOk, FlattenFields;
    var text := RenderFields(before) + KeyText(key, q);
    var lx := Begin(text);
    assert Unread(lx) == text;
    var a := ReadDocument(lx, before, KeyText(key, q));
    end := RunKeyAlone(a, key, q);
  }

  lemma RunKeyAlone(lx: Lexer, key: string, q: Quote) returns (end: seq<Item>)
    requires At(lx, Top, Empty, KeyText(key, q)) && KeyOk(key, q, '=')
    ensures |end| == 1 && end[0].typ.EofItem? && Good(lx) && Bared(Run(lx)) == [Bare(KeyItem, key)] + end
  {
    hide At, Sends, Good, Run, Bared, KeyText, KeyOk;
    var b := ReadKeyAlone(lx, key, q);
    AtIsGood(b, KeyEnd, On(TopValueEnd, Empty), "");
    FinishKey(b, On(TopValueEnd, Empty));
    end := Bared(Run(b));
    SendsToEnd(lx, [Bare(KeyItem, key)], b, end);
  }

  /** A key without a value at the very end of a text is an error; only a key that reads
      as a closing brace is passed over. */
  lemma KeyAtTheEnd(w: World, before: seq<Field>, key: string, q: Quote)
    requires FieldsOk(before) && KeyOk(key, q, '=')
    ensures Parse(w, false, RenderFields(before) + KeyText(key, q)) == if key == "}" then Ok(DenoteFields(map[], before)) else Err
  {
    hide DenoteFields, FieldsOk, KeyOk, RenderFields, KeyText, FlattenFields, ProcessItems, Lex, Bared;
    var text := RenderFields(before) + KeyText(key, q);
    var end := LexKeyAlone(before, key, q);
    PositionsDoNotMatter(w, {}, Root, false, Lex(text));
    FieldsFit(before);
    var none, m := Stacks([], [], []), DenoteFields(map[], before);
    RebuildsFields(w, {}, none, map[], before, [Bare(KeyItem, key)] + end);
    assert PushContext(none, MapCtx(map[])) == Root && PushContext(none, MapCtx(m)) == Stacks([MapCtx(m)], [], []);
    ProcessKey(w, {}, Stacks([MapCtx(m)], [], []), false, key, end);
    EndAfterLastKey(w, Stacks([MapCtx(m)], [] + [key], []), key != "}", end);
  }

  lemma EndAfterLastKey(w: World, st: Stacks, dangling: bool, end: seq<Item>)
    requires |end| == 1 && end[0].typ.EofItem?
    ensures ProcessItems(w, {}, false, st, dangling, end) == if dangling then Err else Ok(st)
  {
  }
}
