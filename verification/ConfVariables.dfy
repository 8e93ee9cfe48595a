/** What a variable stands for. */
module ConfVariables {
  import opened Ascii
  import opened ConfLexer
  import opened ConfParser
  import opened ConfRebuild
  import opened ConfText

  predicate Defines(c: Context, name: string) { c.MapCtx? && name in c.entries }

  /** `v` is what `name` stands for where the containers `ctxs` are open: the text itself
      for a bcrypt hash; what the innermost map that defines it says; and otherwise what
      its environment variable says, read as a value, unless it is being read already. */
  ghost predicate StandsFor(w: World, refs: set<string>, ctxs: seq<Context>, name: string, v: Value) {
    if "2a$" <= name then v == Text("$" + name)
    else
      || (exists i :: 0 <= i < |ctxs| && Innermost(ctxs, i, name) && v == ctxs[i].entries[name])
      || (Undefined(ctxs, name) && name !in refs && name in w.vars && Reads(w.vars[name], v))
  }

  predicate Innermost(ctxs: seq<Context>, i: nat, name: string)
    requires i < |ctxs|
  {
    Defines(ctxs[i], name) && forall j :: i < j < |ctxs| ==> !Defines(ctxs[j], name)
  }

  predicate Undefined(ctxs: seq<Context>, name: string) { forall j :: 0 <= j < |ctxs| ==> !Defines(ctxs[j], name) }

  /** `text` is the text of a value. */
  ghost predicate Reads(text: string, v: Value) { exists t :: TreeOk(t) && text == Render(t) && v == Denote(t) }

  lemma EnvironmentReads(w: World, refs: set<string>, name: string, v: Value)
    requires name !in refs && name in w.vars && Reads(w.vars[name], v)
    ensures LookupEnv(w, refs, name) == Ok(v)
  {
    var t :| TreeOk(t) && w.vars[name] == Render(t) && v == Denote(t);
    var f := Field(NoNote, "pk", Unquoted, '=', t, ',');
    hide ParseText, Denote, Render, TreeOk;
    FewerVariables(w, refs, name);
    assert FieldOk(f);
    OpenDocumentRoundTrip(w, refs + {name}, [], f);
    OpenIs(f, t);
  }

  lemma OpenIs(f: Field, t: Tree)
    requires f == Field(NoNote, "pk", Unquoted, '=', t, ',')
    ensures RenderFields([]) + OpenField(f) == PKEY + "=" + Render(t) && DenoteFields(map[], []) == map[]
  {
    hide Render;
  }

  /** A variable sets what it stands for. */
  lemma VariableSets(w: World, refs: set<string>, st: Stacks, name: string, v: Value)
    requires StandsFor(w, refs, st.ctxs, name, v)
    ensures ProcessItem(w, refs, false, st, Bare(VariableItem, name)) == SetValue(false, st, v)
  {
    hide SetValue, LookupEnv, Reads;
    if !("2a$" <= name) {
      if i :| 0 <= i < |st.ctxs| && Innermost(st.ctxs, i, name) && v == st.ctxs[i].entries[name] {
        assert Scope(st.ctxs, name) == i;
      } else {
        assert Scope(st.ctxs, name) == -1;
        EnvironmentReads(w, refs, name, v);
      }
    }
  }

  /** A variable that nothing defines is an error, and so is one that refers back to
      itself through the environment. */
  lemma UndefinedFails(w: World, refs: set<string>, st: Stacks, name: string)
    requires !("2a$" <= name) && Undefined(st.ctxs, name) && (name in refs || name !in w.vars)
    ensures ProcessItem(w, refs, false, st, Bare(VariableItem, name)) == Err
  {
    assert Scope(st.ctxs, name) == -1;
    assert LookupEnv(w, refs, name) == Err;
    assert ProcessVariable(w, refs, false, st, Bare(VariableItem, name)) == Err;
  }

  // ---------- In a text ----------

  predicate NameOk(name: string) { forall i :: 0 <= i < |name| ==> RawRuneOk(name[i]) }

  /** The field `f` with a variable for its value. */
  function VarField(f: Field, name: string): string {
    NoteText(f.note) + (KeyText(f.key, f.quote) + ([f.sep] + (("$" + name) + [f.end])))
  }

  function VarItems(f: Field, name: string): seq<Item> {
    NoteItems(f.note) + ([Bare(KeyItem, f.key)] + [Bare(VariableItem, name)])
  }

  lemma DollarIsNoBool(name: string)
    ensures RawItem("$" + name) == Bare(VariableItem, name)
  {
    var text := "$" + name;
    assert Lower(text)[0] == '$' && text[1..] == name;
  }

  lemma EndFollows(c: char, rest: string)
    requires EndOk(c)
    ensures EndsBy([c] + rest, true)
  {
  }

  lemma ReadVariable(lx: Lexer, ret: State, k: Stack, name: string, c: char, rest: string) returns (lx': Lexer)
    requires At(lx, Value, On(ret, k), ("$" + name) + ([c] + rest)) && lx.start == lx.pos && EndOk(c) && NameOk(name)
    ensures At(lx', ret, k, [c] + rest) && Sends(lx, [Bare(VariableItem, name)], lx')
  {
    hide At, Sends, RawRuneOk, EndsBy, RawItem;
    assert RawRuneOk('$') by { DollarRune(); }
    DollarIsNoBool(name);
    EndFollows(c, rest);
    lx' := ReadRaw(lx, ret, k, "$" + name, [c] + rest);
  }

  lemma DollarRune()
    ensures RawRuneOk('$')
  {
  }

  lemma VarSplits(f: Field, name: string, tail: string)
    ensures VarField(f, name) + tail
            == NoteText(f.note) + (KeyText(f.key, f.quote) + ([f.sep] + (("$" + name) + ([f.end] + tail))))
  {
    hide NoteText, KeyText;
  }

  /** A field with a variable, inside a map. */
  lemma ReadVarField(lx: Lexer, k: Stack, f: Field, name: string, tail: string) returns (lx': Lexer)
    requires At(lx, MapKeyStart, k, VarField(f, name) + tail) && FieldOk(f) && NameOk(name)
    ensures At(lx', MapKeyStart, k, tail) && Sends(lx, VarItems(f, name), lx')
  {
    hide At, Sends, NoteText, NoteItems, KeyText, KeyOk, SepOk, NoteOk, NameOk, EndOk;
    var text := ("$" + name) + ([f.end] + tail);
    assert text[0] == '$' && text == [text[0]] + text[1..];
    VarSplits(f, name, tail);
    var n := ReadNote(lx, MapKeyStart, k, f.note, KeyText(f.key, f.quote) + ([f.sep] + text));
    var a := ReadKey(n, false, k, f.key, f.quote, f.sep, text);
    var v := EnterFieldValue(a, k, text[0], text[1..]);
    var b := ReadVariable(v, MapValueEnd, k, name, f.end, tail);
    lx' := LeaveField(b, k, f.end, tail);
    var key, item := [Bare(KeyItem, f.key)], [Bare(VariableItem, name)];
    SendsThen(a, [], v, item, b);
    SendsThen(a, [] + item, b, [], lx');
    assert [] + item + [] == item;
    SendsThen(n, key, a, item, lx');
    SendsThen(lx, NoteItems(f.note), n, key + item, lx');
  }

  /** The field `f` with a map that holds the fields `fs` and then a variable. */
  function OuterField(f: Field, fs: seq<Field>, g: Field, name: string): string {
    NoteText(f.note) + (KeyText(f.key, f.quote) + ([f.sep] + ("{" + (RenderFields(fs) + (VarField(g, name) + ("}" + [f.end]))))))
  }

  function OuterItems(f: Field, fs: seq<Field>, g: Field, name: string): seq<Item> {
    NoteItems(f.note) + ([Bare(KeyItem, f.key)] + ([Bare(MapStartItem, "")] + (FlattenFields(fs)
      + (VarItems(g, name) + ([Bare(MapEndItem, "")] + [Bare(EofItem, "")])))))
  }

  function MapItems(fs: seq<Field>, g: Field, name: string): seq<Item> {
    [Bare(MapStartItem, "")] + (FlattenFields(fs) + (VarItems(g, name) + [Bare(MapEndItem, "")]))
  }

  lemma ReadVarMap(lx: Lexer, ret: State, k: Stack, fs: seq<Field>, g: Field, name: string, rest: string) returns (lx': Lexer)
    requires At(lx, Value, On(ret, k), "{" + (RenderFields(fs) + (VarField(g, name) + ("}" + rest))))
    requires FieldsOk(fs) && FieldOk(g) && NameOk(name)
    ensures At(lx', ret, k, rest) && Sends(lx, MapItems(fs, g, name), lx')
  {
    hide At, Sends, RenderFields, FlattenFields, FieldsOk, FieldOk, VarField, VarItems;
    var close := [Bare(MapEndItem, "")];
    var last := VarField(g, name) + ("}" + rest);
    var a := OpenObject(lx, On(ret, k), RenderFields(fs) + last);
    var b := ReadFields(a, On(ret, k), fs, last);
    var c := ReadVarField(b, On(ret, k), g, name, "}" + rest);
    lx' := CloseObject(c, ret, k, rest);
    SendsThen(b, VarItems(g, name), c, close, lx');
    SendsThen(a, FlattenFields(fs), b, VarItems(g, name) + close, lx');
    SendsThen(lx, [Bare(MapStartItem, "")], a, FlattenFields(fs) + (VarItems(g, name) + close), lx');
  }

  lemma ReadOuter(lx: Lexer, f: Field, fs: seq<Field>, g: Field, name: string)
    requires At(lx, Top, Empty, OuterField(f, fs, g, name)) && FieldOk(f) && FieldsOk(fs) && FieldOk(g) && NameOk(name)
    ensures Good(lx) && Bared(Run(lx)) == OuterItems(f, fs, g, name)
  {
    hide At, Sends, Good, Run, Bared, KeyText, RenderFields, MapItems, NoteText, NoteItems, FieldsOk, VarField, NameOk;
    var text := "{" + (RenderFields(fs) + (VarField(g, name) + ("}" + [f.end])));
    assert text[0] == '{';
    var n := ReadNote(lx, Top, Empty, f.note, KeyText(f.key, f.quote) + ([f.sep] + text));
    var a := ReadTopKey(n, f.key, f.quote, f.sep, text);
    var b := ReadVarMap(a, TopValueEnd, Empty, fs, g, name, [f.end]);
    assert [f.end] == [f.end] + "";
    var c := LeaveTop(b, f.end, "");
    FinishTop(c);
    AtIsGood(c, Top, Empty, "");
    OuterSends(lx, f, fs, g, name, n, a, b, c);
  }

  lemma OuterSends(lx: Lexer, f: Field, fs: seq<Field>, g: Field, name: string, n: Lexer, a: Lexer, b: Lexer, c: Lexer)
    requires Sends(lx, NoteItems(f.note), n) && Sends(n, [Bare(KeyItem, f.key)], a) && Sends(a, MapItems(fs, g, name), b)
    requires Sends(b, [], c) && Good(c) && Bared(Run(c)) == [Bare(EofItem, "")]
    ensures Good(lx) && Bared(Run(lx)) == OuterItems(f, fs, g, name)
  {
    hide Sends, Good, Run, Bared, MapItems, NoteItems, OuterItems;
    var key, items := [Bare(KeyItem, f.key)], MapItems(fs, g, name);
    SendsThen(a, items, b, [], c);
    SendsThen(n, key, a, items + [], c);
    SendsThen(lx, NoteItems(f.note), n, key + (items + []), c);
    SendsToEnd(lx, NoteItems(f.note) + (key + (items + [])), c, [Bare(EofItem, "")]);
    OuterIs(f, fs, g, name);
  }

  lemma OuterIs(f: Field, fs: seq<Field>, g: Field, name: string)
    ensures NoteItems(f.note) + ([Bare(KeyItem, f.key)] + (MapItems(fs, g, name) + [])) + [Bare(EofItem, "")] == OuterItems(f, fs, g, name)
  {
    hide NoteItems, FlattenFields, VarItems;
  }

  lemma ProcessVar(w: World, refs: set<string>, st: Stacks, m: map<string, Value>, f: Field, name: string, v: Value, rest: seq<Item>)
    requires StandsFor(w, refs, PushContext(st, MapCtx(m)).ctxs, name, v)
    ensures ProcessItems(w, refs, false, PushContext(st, MapCtx(m)), false, VarItems(f, name) + rest)
            == ProcessItems(w, refs, false, PushContext(st, MapCtx(m[f.key := v])), false, rest)
  {
    hide ProcessItem, ProcessItems, SetValue, NoteItems, StandsFor;
    var here, item := PushContext(st, MapCtx(m)), Bare(VariableItem, name);
    var keyed := here.(keys := here.keys + [f.key]);
    assert VarItems(f, name) + rest == NoteItems(f.note) + ([Bare(KeyItem, f.key)] + ([item] + rest));
    ProcessNote(w, refs, here, f.note, [Bare(KeyItem, f.key)] + ([item] + rest));
    ProcessKey(w, refs, here, false, f.key, [item] + rest);
    ProcessFirst(w, refs, keyed, f.key != "}", item, rest);
    VariableSets(w, refs, keyed, name, v);
    SetInTable(st, m, f.key, v);
  }

  lemma ProcessOuter(w: World, m: map<string, Value>, f: Field, fs: seq<Field>, g: Field, name: string, v: Value)
    requires Fits64(Obj(fs))
    requires StandsFor(w, {}, [MapCtx(m), MapCtx(DenoteFields(map[], fs))], name, v)
    ensures ProcessItems(w, {}, false, Stacks([MapCtx(m)], [], []), false, OuterItems(f, fs, g, name))
            == Ok(Stacks([MapCtx(m[f.key := Table(DenoteFields(map[], fs)[g.key := v])])], [], []))
  {
    hide ProcessItem, ProcessItems, SetValue, NoteItems, StandsFor, DenoteFields, FlattenFields, VarItems;
    var inner := DenoteFields(map[], fs);
    var open, close, eof := Bare(MapStartItem, ""), Bare(MapEndItem, ""), Bare(EofItem, "");
    var none := Stacks([], [], []);
    var start, st := Stacks([MapCtx(m)], [], []), Stacks([MapCtx(m)], [f.key], []);
    var last := VarItems(g, name) + ([close] + [eof]);
    assert [] + [f.key] == [f.key];
    ProcessNote(w, {}, start, f.note, [Bare(KeyItem, f.key)] + ([open] + (FlattenFields(fs) + last)));
    ProcessKey(w, {}, start, false, f.key, [open] + (FlattenFields(fs) + last));
    ProcessFirst(w, {}, st, f.key != "}", open, FlattenFields(fs) + last);
    RebuildsFields(w, {}, st, map[], fs, last);
    assert [MapCtx(m)] + [MapCtx(inner)] == [MapCtx(m), MapCtx(inner)];
    ProcessVar(w, {}, st, inner, g, name, v, [close] + [eof]);
    var filled := PushContext(st, MapCtx(inner[g.key := v]));
    ProcessFirst(w, {}, filled, false, close, [eof]);
    CloseSets(st, MapCtx(inner[g.key := v]), close);
    OpenAndClose(w, {}, st, filled, open, close);
    SetTop(st, m, f.key, Table(inner[g.key := v]));
    assert [f.key][..0] == [];
    EndOfItems(w, {}, Stacks([MapCtx(m[f.key := Table(inner[g.key := v])])], [], []));
  }

  /** Parsing a text whose last field is a map that ends with a variable gives that key
      what the variable stands for: in the map itself, in the document around it, or in
      the environment. */
  lemma VariableIsParsed(w: World, before: seq<Field>, f: Field, fs: seq<Field>, g: Field, name: string, v: Value)
    requires FieldsOk(before) && FieldOk(f) && FieldsOk(fs) && FieldOk(g) && NameOk(name)
    requires StandsFor(w, {}, [MapCtx(DenoteFields(map[], before)), MapCtx(DenoteFields(map[], fs))], name, v)
    ensures Parse(w, false, RenderFields(before) + OuterField(f, fs, g, name))
            == Ok(DenoteFields(map[], before)[f.key := Table(DenoteFields(map[], fs)[g.key := v])])
  {
    hide DenoteFields, FieldsOk, FieldOk, RenderFields, OuterField, OuterItems, FlattenFields, ProcessItems, Lex, Bared, StandsFor, NameOk;
    var text, items := RenderFields(before) + OuterField(f, fs, g, name), OuterItems(f, fs, g, name);
    LexOuter(before, f, fs, g, name);
    PositionsDoNotMatter(w, {}, Root, false, Lex(text));
    FieldsFit(before);
    FieldsFit(fs);
    var none, m := Stacks([], [], []), DenoteFields(map[], before);
    RebuildsFields(w, {}, none, map[], before, items);
    assert PushContext(none, MapCtx(map[])) == Root && PushContext(none, MapCtx(m)) == Stacks([MapCtx(m)], [], []);
    ProcessOuter(w, m, f, fs, g, name, v);
  }

  lemma LexOuter(before: seq<Field>, f: Field, fs: seq<Field>, g: Field, name: string)
    requires FieldsOk(before) && FieldOk(f) && FieldsOk(fs) && FieldOk(g) && NameOk(name)
    ensures Bared(Lex(RenderFields(before) + OuterField(f, fs, g, name))) == FlattenFields(before) + OuterItems(f, fs, g, name)
  {
    hide RenderFields, FieldsOk, FieldOk, OuterField, OuterItems, FlattenFields, NameOk;
    var text := RenderFields(before) + OuterField(f, fs, g, name);
    var lx := Begin(text);
    assert Unread(lx) == text;
    var mid := ReadDocument(lx, before, OuterField(f, fs, g, name));
    ReadOuter(mid, f, fs, g, name);
  }
}
