/** The text of a document and what the lexer and the parser make of it. */
module ConfText {
  import opened Ascii
  import opened ConfLexer
  import opened ConfParser
  import opened ConfRebuild
  import opened Int64

  // ---------- Text ----------

  function EscapeChar(c: char): string {
    if c == '"' then "\\\"" else if c == '\\' then "\\\\" else if c == EOF then "\\x00" else [c]
  }

  function Escape(s: string): string {
    if s == "" then "" else EscapeChar(s[0]) + Escape(s[1..])
  }

  predicate Letter(c: char) { 'a' <= c <= 'z' || 'A' <= c <= 'Z' || c == '_' }

  /** Quoted text has no escapes but in double-quoted strings. */
  predicate QuotedOk(s: string, q: Quote) { !q.Unquoted? ==> EOF !in s && QuoteRune(q) !in s }

  function QuoteRune(q: Quote): char { if q.Single? then '\'' else '"' }

  predicate RawRuneOk(c: char) { !EndsRawString(c) && c != '\\' && c != '\'' }

  /** An unquoted string starts with a letter and is no boolean. */
  predicate RawOk(s: string) {
    s != "" && Letter(s[0]) && (forall i :: 0 <= i < |s| ==> RawRuneOk(s[i])) && !IsBool(s)
  }

  predicate KeyRuneOk(c: char) { !IsSpace(c) && !IsKeySeparator(c) && c != EOF }

  /** An unquoted key starts with a letter. Before a space `include` is a keyword. */
  predicate KeyOk(key: string, q: Quote, sep: char) {
    if q.Unquoted? then
      && key != "" && Letter(key[0]) && (forall i :: 0 <= i < |key| ==> KeyRuneOk(key[i]))
      && (sep == ' ' ==> Lower(key) != "include")
    else QuotedOk(key, q)
  }

  predicate SepOk(c: char) { c == ':' || c == '=' || c == ' ' }
  predicate EndOk(c: char) { c == ',' || c == ';' || c == '\n' }

  predicate NoteOk(note: Note) {
    note.NoNote? || forall i :: 0 <= i < |note.text| ==> !IsNL(note.text[i]) && note.text[i] != EOF
  }

  predicate TreeOk(t: Tree) {
    match t
    case Leaf(s, q) => (q.Single? ==> QuotedOk(s, q)) && (q.Unquoted? ==> RawOk(s))
    case Num(n) => -MAX_INT64 - 1 <= n <= MAX_INT64
    case Sized(n, letter, ending) => -MAX_INT64 - 1 <= n <= MAX_INT64 && SizeLetter(letter) && SizeEnding(ending)
    case Word(w) => BoolWord(w)
    case Arr(es) => forall i :: 0 <= i < |es| ==> TreeOk(es[i])
    case Obj(fs) => FieldsOk(fs)
  }

  predicate FieldOk(f: Field) { NoteOk(f.note) && KeyOk(f.key, f.quote, f.sep) && SepOk(f.sep) && EndOk(f.end) }

  predicate FieldsOk(fs: seq<Field>) {
    forall i :: 0 <= i < |fs| ==> FieldOk(fs[i]) && TreeOk(fs[i].value)
  }

  function Render(t: Tree): string {
    match t
    case Leaf(s, q) =>
      if q.Double? then "\"" + (Escape(s) + "\"") else if q.Single? then "'" + (s + "'") else s
    case Num(n) => Numeral(n)
    case Sized(n, letter, ending) => Numeral(n) + ([letter] + ending)
    case Word(w) => w
    case Arr(es) => "[" + (RenderAll(es) + "]")
    case Obj(fs) => "{" + (RenderFields(fs) + "}")
  }

  lemma BoolStarts(w: string)
    requires BoolWord(w)
    ensures w != "" && Letter(w[0]) && IsBool(w) && forall i :: 0 <= i < |w| ==> RawRuneOk(w[i])
  {
    forall i | 0 <= i < |w| ensures RawRuneOk(w[i]) && Letter(w[i]) {
      assert 'a' <= Lower(w)[i] <= 'z';
    }
    assert |Lower(w)| == |w|;
  }

  lemma Starts(t: Tree)
    requires TreeOk(t)
    ensures Render(t) != "" && StartsValue(Render(t)[0])
  {
    hide NatNumeral, BoolWord, RenderAll, RenderFields, Escape;
    if t.Word? { BoolStarts(t.word); }
  }

  function RenderAll(es: seq<Tree>): string {
    if es == [] then "" else Render(es[0]) + ("," + RenderAll(es[1..]))
  }

  function NoteText(note: Note): string {
    match note
    case NoNote => ""
    case Hash(text) => "#" + (text + "\n")
    case Slashes(text) => "//" + (text + "\n")
  }

  function KeyText(key: string, q: Quote): string {
    if q.Unquoted? then key else [QuoteRune(q)] + (key + [QuoteRune(q)])
  }

  /** A field: its comment line, its key, the separator, its value, and what ends it. */
  function FieldText(f: Field): string {
    NoteText(f.note) + (KeyText(f.key, f.quote) + ([f.sep] + (Render(f.value) + [f.end])))
  }

  function RenderFields(fs: seq<Field>): string {
    if fs == [] then "" else FieldText(fs[0]) + RenderFields(fs[1..])
  }

  // ---------- Running the lexer ----------

  function Bared(items: seq<Item>): seq<Item> {
    seq(|items|, i requires 0 <= i < |items| => Bare(items[i].typ, items[i].val))
  }

  /** What the lexer still has to read. */
  function Unread(lx: Lexer): string
    requires Positioned(lx)
  {
    lx.input[lx.pos..]
  }

  /** A lexer in state `s` over stack `k`, about to read `text`. */
  predicate At(lx: Lexer, s: State, k: Stack, text: string) {
    Positioned(lx) && Good(lx) && lx.state == s && lx.stack == k && Unread(lx) == text && lx.parts == []
  }

  /** From `lx` the lexer sends `sent` and goes on as `lx'`. */
  predicate Sends(lx: Lexer, sent: seq<Item>, lx': Lexer) {
    Good(lx) && Good(lx') && Bared(Run(lx)) == sent + Bared(Run(lx'))
  }

  lemma SendsThen(a: Lexer, s: seq<Item>, b: Lexer, t: seq<Item>, c: Lexer)
    requires Sends(a, s, b) && Sends(b, t, c)
    ensures Sends(a, s + t, c)
  {
  }

  lemma SendsToEnd(lx: Lexer, sent: seq<Item>, lx': Lexer, end: seq<Item>)
    requires Sends(lx, sent, lx') && Good(lx') && Bared(Run(lx')) == end
    ensures Good(lx) && Bared(Run(lx)) == sent + end
  {
    hide Run, Bared, Good;
  }

  /** What a step sends, without positions. */
  function Sent(s: Stepped): seq<Item> {
    if s.items == [] then [] else [Bare(s.items[0].typ, s.items[0].val)]
  }

  /** One step of the lexer, as a run. */
  lemma OneStep(lx: Lexer) returns (lx': Lexer)
    requires Good(lx) && !lx.state.Done?
    ensures lx' == Step(lx).lx && Good(lx') && Positioned(lx')
    ensures Sends(lx, Sent(Step(lx)), lx')
  {
    hide Step, Good, Keeps;
    var s := Step(lx);
    RunShrinks(lx, s);
    lx' := s.lx;
    if s.items != [] {
      assert Run(lx) == [s.items[0]] + Run(lx');
      assert Bared(Run(lx)) == Sent(s) + Bared(Run(lx'));
    }
  }

  lemma UnreadNext(lx: Lexer, c: char, rest: string)
    requires Positioned(lx) && Unread(lx) == [c] + rest
    ensures Rune(lx) == c && !AtEnd(lx) && Next(lx).pos == lx.pos + 1 && Unread(Next(lx)) == rest
  {
    assert lx.input[lx.pos..][1..] == lx.input[lx.pos + 1..];
    assert ([c] + rest)[1..] == rest;
    assert Unread(lx)[0] == c;
  }

  /** The rune ahead; at the end of the text it is the end-of-file rune. */
  lemma RuneAhead(lx: Lexer, rest: string)
    requires Positioned(lx) && Unread(lx) == rest
    ensures Rune(lx) == if rest == "" then EOF else rest[0]
  {
  }

  // ---------- Containers ----------

  lemma OpenArray(lx: Lexer, k: Stack, rest: string) returns (lx': Lexer)
    requires At(lx, Value, k, "[" + rest)
    ensures At(lx', ArrayValue, k, rest) && lx'.start == lx'.pos && Sends(lx, [Bare(ArrayStartItem, "")], lx')
  {
    hide Good, Run, Sends, Next, Peeked, Ignore, Keeps, RoleOf, Rank;
    UnreadNext(lx, '[', rest);
    lx' := OneStep(lx);
  }

  lemma OpenObject(lx: Lexer, k: Stack, rest: string) returns (lx': Lexer)
    requires At(lx, Value, k, "{" + rest)
    ensures At(lx', MapKeyStart, k, rest) && Sends(lx, [Bare(MapStartItem, "")], lx')
  {
    hide Good, Run, Sends, Next, Peeked, Ignore, Keeps, RoleOf, Rank;
    UnreadNext(lx, '{', rest);
    lx' := OneStep(lx);
  }

  /** The step after a skip only drops the text read so far. */
  lemma AfterSkip(a: Lexer, sent: seq<Item>, b: Lexer, s: State, k: Stack, rest: string) returns (c: Lexer)
    requires Sends(a, sent, b) && At(b, Skip(s), k, rest)
    ensures At(c, s, k, rest) && c.start == c.pos && Sends(a, sent, c)
  {
    hide Good, Run, Next, Peeked, Bared, Keeps, RoleOf, Rank;
    c := OneStep(b);
    SendsThen(a, sent, b, [], c);
    assert sent + [] == sent;
  }

  lemma EndArray(lx: Lexer, ret: State, k: Stack, rest: string) returns (lx': Lexer)
    requires At(lx, ArrayEnd, On(ret, k), rest)
    ensures At(lx', ret, k, rest) && Sends(lx, [Bare(ArrayEndItem, "")], lx')
  {
    hide Good, Run, Sends, Next, Peeked, Ignore, Keeps, RoleOf, Rank;
    lx' := OneStep(lx);
  }

  lemma EndObject(lx: Lexer, ret: State, k: Stack, rest: string) returns (lx': Lexer)
    requires At(lx, MapEnd, On(ret, k), rest)
    ensures At(lx', ret, k, rest) && Sends(lx, [Bare(MapEndItem, "")], lx')
  {
    hide Good, Run, Sends, Next, Peeked, Ignore, Keeps, RoleOf, Rank;
    lx' := OneStep(lx);
  }

  lemma CloseArray(lx: Lexer, ret: State, k: Stack, rest: string) returns (lx': Lexer)
    requires At(lx, ArrayValue, On(ret, k), "]" + rest)
    ensures At(lx', ret, k, rest) && Sends(lx, [Bare(ArrayEndItem, "")], lx')
  {
    hide Good, Run, Sends, Next, Peeked, Ignore, Keeps, RoleOf, Rank;
    UnreadNext(lx, ']', rest);
    var end := OneStep(lx);
    lx' := EndArray(end, ret, k, rest);
    SendsThen(lx, [], end, [Bare(ArrayEndItem, "")], lx');
    assert [] + [Bare(ArrayEndItem, "")] == [Bare(ArrayEndItem, "")];
  }

  lemma BeginCloseObject(lx: Lexer, k: Stack, rest: string) returns (lx': Lexer)
    requires At(lx, MapKeyStart, k, "}" + rest)
    ensures At(lx', Skip(MapEnd), k, rest) && Sends(lx, [], lx')
  {
    hide Good, Run, Sends, Next, Peeked, Ignore, Keeps, RoleOf, Rank;
    UnreadNext(lx, '}', rest);
    UnreadPeeked(lx);
    lx' := OneStep(lx);
  }

  lemma CloseObject(lx: Lexer, ret: State, k: Stack, rest: string) returns (lx': Lexer)
    requires At(lx, MapKeyStart, On(ret, k), "}" + rest)
    ensures At(lx', ret, k, rest) && Sends(lx, [Bare(MapEndItem, "")], lx')
  {
    hide At, Sends;
    var skip := BeginCloseObject(lx, On(ret, k), rest);
    var end := AfterSkip(lx, [], skip, MapEnd, On(ret, k), rest);
    lx' := EndObject(end, ret, k, rest);
    SendsThen(lx, [], end, [Bare(MapEndItem, "")], lx');
    assert [] + [Bare(MapEndItem, "")] == [Bare(MapEndItem, "")];
  }

  /** Runes that start a rendered value. */
  predicate StartsValue(c: char) {
    c == '"' || c == '\'' || c == '[' || c == '{' || c == '-' || c == '$' || Letter(c) || IsDigit(c)
  }

  lemma EnterElement(lx: Lexer, k: Stack, c: char, rest: string) returns (lx': Lexer)
    requires At(lx, ArrayValue, k, [c] + rest) && StartsValue(c) && lx.start == lx.pos
    ensures At(lx', Value, On(ArrayValueEnd, k), [c] + rest) && lx'.start == lx'.pos && Sends(lx, [], lx')
  {
    hide Good, Run, Sends, Next, Peeked, Ignore, Keeps, RoleOf, Rank;
    UnreadNext(lx, c, rest);
    lx' := OneStep(lx);
  }

  lemma LeaveElement(lx: Lexer, k: Stack, rest: string) returns (lx': Lexer)
    requires At(lx, ArrayValueEnd, k, "," + rest)
    ensures At(lx', ArrayValue, k, rest) && lx'.start == lx'.pos && Sends(lx, [], lx')
  {
    hide Good, Run, Sends, Next, Peeked, Ignore, Keeps, RoleOf, Rank;
    UnreadNext(lx, ',', rest);
    var skip := OneStep(lx);
    lx' := AfterSkip(lx, [], skip, ArrayValue, k, rest);
  }

  lemma LeaveField(lx: Lexer, k: Stack, c: char, rest: string) returns (lx': Lexer)
    requires At(lx, MapValueEnd, k, [c] + rest) && EndOk(c)
    ensures At(lx', MapKeyStart, k, rest) && Sends(lx, [], lx')
  {
    hide Good, Run, Sends, Next, Peeked, Ignore, Keeps, RoleOf, Rank;
    UnreadNext(lx, c, rest);
    var skip := OneStep(lx);
    lx' := AfterSkip(lx, [], skip, MapKeyStart, k, rest);
  }

  // ---------- Keys ----------

  lemma UnreadPeeked(lx: Lexer)
    requires Positioned(lx)
    ensures Rune(Peeked(lx)) == Rune(lx) && Unread(Peeked(lx)) == Unread(lx) && AtEnd(Peeked(lx)) == AtEnd(lx)
    ensures Next(Peeked(lx)).pos == Next(lx).pos
  {
  }

  function KeyStartOf(top: bool): State { if top then KeyStart else MapKeyStart }
  function PlainKeyOf(top: bool): State { if top then Key else MapKey }
  function KeyEndOf(top: bool): State { if top then KeyEnd else MapKeyEnd }
  function QuotedKeyOf(top: bool, q: Quote): State {
    if top then (if q.Single? then QuotedKey else DubQuotedKey) else if q.Single? then MapQuotedKey else MapDubQuotedKey
  }

  lemma OpenKeyAtTop(lx: Lexer, q: Quote, k: Stack, rest: string) returns (lx': Lexer)
    requires At(lx, KeyStartOf(true), k, [QuoteRune(q)] + rest) && !q.Unquoted?
    ensures At(lx', QuotedKeyOf(true, q), k, rest) && lx'.start == lx'.pos && Sends(lx, [], lx')
  {
    hide Good, Run, Sends, Next, Peeked, Ignore, Keeps, RoleOf, Rank;
    UnreadNext(lx, QuoteRune(q), rest);
    UnreadPeeked(lx);
    var skip := OneStep(lx);
    lx' := AfterSkip(lx, [], skip, QuotedKeyOf(true, q), k, rest);
  }

  lemma OpenKeyInMap(lx: Lexer, q: Quote, k: Stack, rest: string) returns (lx': Lexer)
    requires At(lx, KeyStartOf(false), k, [QuoteRune(q)] + rest) && !q.Unquoted?
    ensures At(lx', QuotedKeyOf(false, q), k, rest) && lx'.start == lx'.pos && Sends(lx, [], lx')
  {
    hide Good, Run, Sends, Next, Peeked, Ignore, Keeps, RoleOf, Rank;
    UnreadNext(lx, QuoteRune(q), rest);
    UnreadPeeked(lx);
    var skip := OneStep(lx);
    lx' := AfterSkip(lx, [], skip, QuotedKeyOf(false, q), k, rest);
  }

  lemma OpenKey(lx: Lexer, top: bool, q: Quote, k: Stack, rest: string) returns (lx': Lexer)
    requires At(lx, KeyStartOf(top), k, [QuoteRune(q)] + rest) && !q.Unquoted?
    ensures At(lx', QuotedKeyOf(top, q), k, rest) && lx'.start == lx'.pos && Sends(lx, [], lx')
  {
    hide At, Sends;
    if top {
      lx' := OpenKeyAtTop(lx, q, k, rest);
    } else {
      lx' := OpenKeyInMap(lx, q, k, rest);
    }
  }

  lemma KeyRune(lx: Lexer, top: bool, q: Quote, k: Stack, c: char, rest: string) returns (lx': Lexer)
    requires At(lx, QuotedKeyOf(top, q), k, [c] + rest) && c != QuoteRune(q) && c != EOF && !q.Unquoted?
    ensures At(lx', QuotedKeyOf(top, q), k, rest) && lx'.start == lx.start && lx'.input == lx.input && lx'.pos == lx.pos + 1
    ensures Sends(lx, [], lx')
  {
    hide Good, Run, Sends, Next, Peeked, Ignore, Keeps, RoleOf, Rank;
    UnreadNext(lx, c, rest);
    UnreadPeeked(lx);
    lx' := OneStep(lx);
  }

  /** The runes of a key, up to its closing quote. */
  lemma {:induction false} KeyRunes(lx: Lexer, top: bool, q: Quote, k: Stack, key: string, rest: string) returns (lx': Lexer)
    requires At(lx, QuotedKeyOf(top, q), k, key + rest) && QuotedOk(key, q) && !q.Unquoted?
    ensures At(lx', QuotedKeyOf(top, q), k, rest) && lx'.start == lx.start && lx'.input == lx.input && lx'.pos == lx.pos + |key|
    ensures Sends(lx, [], lx')
    decreases |key|
  {
    hide Good, Run, Bared;
    if key == "" {
      lx' := lx;
      assert key + rest == rest;
      assert [] + Bared(Run(lx)) == Bared(Run(lx));
    } else {
      assert key + rest == [key[0]] + (key[1..] + rest);
      var mid := KeyRune(lx, top, q, k, key[0], key[1..] + rest);
      lx' := KeyRunes(mid, top, q, k, key[1..], rest);
      SendsThen(lx, [], mid, [], lx');
    }
  }

  lemma QuotedKeyEndsAtTop(lx: Lexer, q: Quote)
    requires Positioned(lx) && Good(lx) && lx.state == QuotedKeyOf(true, q) && Rune(lx) == QuoteRune(q) && !q.Unquoted?
    ensures var p := Peeked(lx);
            var n := Next(Ignore(p));
            && Positioned(p) && Step(lx) == Stepped(n.(state := Skip(KeyEndOf(true))), [Emitted(p, KeyItem)])
  {
    hide Good, Keeps, RoleOf, Rank, Next, Peeked, Ignore, Emitted;
  }

  lemma CloseKeyAtTop(lx: Lexer, q: Quote, k: Stack, key: string, rest: string) returns (lx': Lexer)
    requires At(lx, QuotedKeyOf(true, q), k, [QuoteRune(q)] + rest) && lx.input[lx.start..lx.pos] == key && !q.Unquoted?
    ensures At(lx', KeyEndOf(true), k, rest) && Sends(lx, [Bare(KeyItem, key)], lx')
  {
    hide Good, Run, Sends, Next, Peeked, Ignore, Keeps, RoleOf, Rank;
    UnreadNext(lx, QuoteRune(q), rest);
    UnreadPeeked(lx);
    assert Join([]) + key == key;
    QuotedKeyEndsAtTop(lx, q);
    hide Step;
    var skip := OneStep(lx);
    lx' := AfterSkip(lx, [Bare(KeyItem, key)], skip, KeyEndOf(true), k, rest);
  }

  lemma QuotedKeyEndsInMap(lx: Lexer, q: Quote)
    requires Positioned(lx) && Good(lx) && lx.state == QuotedKeyOf(false, q) && Rune(lx) == QuoteRune(q) && !q.Unquoted?
    ensures var p := Peeked(lx);
            var n := Next(Ignore(p));
            && Positioned(p) && Step(lx) == Stepped(n.(state := Skip(KeyEndOf(false))), [Emitted(p, KeyItem)])
  {
    hide Good, Keeps, RoleOf, Rank, Next, Peeked, Ignore, Emitted;
  }

  lemma CloseKeyInMap(lx: Lexer, q: Quote, k: Stack, key: string, rest: string) returns (lx': Lexer)
    requires At(lx, QuotedKeyOf(false, q), k, [QuoteRune(q)] + rest) && lx.input[lx.start..lx.pos] == key && !q.Unquoted?
    ensures At(lx', KeyEndOf(false), k, rest) && Sends(lx, [Bare(KeyItem, key)], lx')
  {
    hide Good, Run, Sends, Next, Peeked, Ignore, Keeps, RoleOf, Rank;
    UnreadNext(lx, QuoteRune(q), rest);
    UnreadPeeked(lx);
    assert Join([]) + key == key;
    QuotedKeyEndsInMap(lx, q);
    hide Step;
    var skip := OneStep(lx);
    lx' := AfterSkip(lx, [Bare(KeyItem, key)], skip, KeyEndOf(false), k, rest);
  }

  lemma CloseKey(lx: Lexer, top: bool, q: Quote, k: Stack, key: string, rest: string) returns (lx': Lexer)
    requires At(lx, QuotedKeyOf(top, q), k, [QuoteRune(q)] + rest) && lx.input[lx.start..lx.pos] == key && !q.Unquoted?
    ensures At(lx', KeyEndOf(top), k, rest) && Sends(lx, [Bare(KeyItem, key)], lx')
  {
    hide At, Sends;
    if top {
      lx' := CloseKeyAtTop(lx, q, k, key, rest);
    } else {
      lx' := CloseKeyInMap(lx, q, k, key, rest);
    }
  }

  /** A quoted key, from its opening quote on. */
  lemma ReadQuotedKey(lx: Lexer, top: bool, q: Quote, k: Stack, key: string, rest: string) returns (lx': Lexer)
    requires At(lx, KeyStartOf(top), k, KeyText(key, q) + rest) && QuotedOk(key, q) && !q.Unquoted?
    ensures At(lx', KeyEndOf(top), k, rest) && Sends(lx, [Bare(KeyItem, key)], lx')
  {
    hide At, Sends;
    var close := [QuoteRune(q)] + rest;
    assert KeyText(key, q) + rest == [QuoteRune(q)] + (key + close);
    var a := OpenKey(lx, top, q, k, key + close);
    var b := KeyRunes(a, top, q, k, key, close);
    TextRead(a, QuotedKeyOf(top, q), k, key, close);
    lx' := CloseKey(b, top, q, k, key, rest);
    SendsThen(lx, [], a, [], b);
    SendsThen(lx, [], b, [Bare(KeyItem, key)], lx');
    assert [] + [Bare(KeyItem, key)] == [Bare(KeyItem, key)];
  }

  lemma OpenPlainKeyAtTop(lx: Lexer, k: Stack, c: char, rest: string) returns (lx': Lexer)
    requires At(lx, KeyStartOf(true), k, [c] + rest) && Letter(c)
    ensures At(lx', PlainKeyOf(true), k, rest) && lx'.start == lx.pos && lx'.input == lx.input && lx'.pos == lx.pos + 1
    ensures Sends(lx, [], lx')
  {
    hide Good, Run, Sends, Next, Peeked, Ignore, Keeps, RoleOf, Rank;
    UnreadNext(lx, c, rest);
    UnreadPeeked(lx);
    lx' := OneStep(lx);
  }

  lemma OpenPlainKeyInMap(lx: Lexer, k: Stack, c: char, rest: string) returns (lx': Lexer)
    requires At(lx, KeyStartOf(false), k, [c] + rest) && Letter(c)
    ensures At(lx', PlainKeyOf(false), k, rest) && lx'.start == lx.pos && lx'.input == lx.input && lx'.pos == lx.pos + 1
    ensures Sends(lx, [], lx')
  {
    hide Good, Run, Sends, Next, Peeked, Ignore, Keeps, RoleOf, Rank;
    UnreadNext(lx, c, rest);
    UnreadPeeked(lx);
    lx' := OneStep(lx);
  }

  lemma OpenPlainKey(lx: Lexer, top: bool, k: Stack, c: char, rest: string) returns (lx': Lexer)
    requires At(lx, KeyStartOf(top), k, [c] + rest) && Letter(c)
    ensures At(lx', PlainKeyOf(top), k, rest) && lx'.start == lx.pos && lx'.input == lx.input && lx'.pos == lx.pos + 1
    ensures Sends(lx, [], lx')
  {
    hide At, Sends;
    if top {
      lx' := OpenPlainKeyAtTop(lx, k, c, rest);
    } else {
      lx' := OpenPlainKeyInMap(lx, k, c, rest);
    }
  }

  lemma PlainKeyRune(lx: Lexer, top: bool, k: Stack, c: char, rest: string) returns (lx': Lexer)
    requires At(lx, PlainKeyOf(top), k, [c] + rest) && KeyRuneOk(c)
    ensures At(lx', PlainKeyOf(top), k, rest) && lx'.start == lx.start && lx'.input == lx.input && lx'.pos == lx.pos + 1
    ensures Sends(lx, [], lx')
  {
    hide Good, Run, Sends, Next, Peeked, Ignore, Keeps, RoleOf, Rank, Emitted;
    UnreadNext(lx, c, rest);
    UnreadPeeked(lx);
    lx' := OneStep(lx);
  }

  lemma {:induction false} PlainKeyRunes(lx: Lexer, top: bool, k: Stack, key: string, rest: string) returns (lx': Lexer)
    requires At(lx, PlainKeyOf(top), k, key + rest) && forall i :: 0 <= i < |key| ==> KeyRuneOk(key[i])
    ensures At(lx', PlainKeyOf(top), k, rest) && lx'.start == lx.start && lx'.input == lx.input && lx'.pos == lx.pos + |key|
    ensures Sends(lx, [], lx')
    decreases |key|
  {
    hide Good, Run, Bared, KeyRuneOk;
    if key == "" {
      lx' := lx;
      assert key + rest == rest;
      assert [] + Bared(Run(lx)) == Bared(Run(lx));
    } else {
      assert key + rest == [key[0]] + (key[1..] + rest);
      var mid := PlainKeyRune(lx, top, k, key[0], key[1..] + rest);
      lx' := PlainKeyRunes(mid, top, k, key[1..], rest);
      SendsThen(lx, [], mid, [], lx');
    }
  }

  lemma ClosePlainKeyAtTop(lx: Lexer, k: Stack, key: string, sep: char, rest: string) returns (lx': Lexer)
    requires At(lx, PlainKeyOf(true), k, [sep] + rest) && lx.input[lx.start..lx.pos] == key && SepOk(sep)
    requires sep == ' ' ==> Lower(key) != "include"
    ensures At(lx', KeyEndOf(true), k, [sep] + rest) && Sends(lx, [Bare(KeyItem, key)], lx')
  {
    hide Good, Run, Sends, Next, Peeked, Ignore, Keeps, RoleOf, Rank, Lower;
    UnreadNext(lx, sep, rest);
    UnreadPeeked(lx);
    assert Join([]) + key == key;
    lx' := OneStep(lx);
  }

  lemma ClosePlainKeyInMap(lx: Lexer, k: Stack, key: string, sep: char, rest: string) returns (lx': Lexer)
    requires At(lx, PlainKeyOf(false), k, [sep] + rest) && lx.input[lx.start..lx.pos] == key && SepOk(sep)
    requires sep == ' ' ==> Lower(key) != "include"
    ensures At(lx', KeyEndOf(false), k, [sep] + rest) && Sends(lx, [Bare(KeyItem, key)], lx')
  {
    hide Good, Run, Sends, Next, Peeked, Ignore, Keeps, RoleOf, Rank, Lower;
    UnreadNext(lx, sep, rest);
    UnreadPeeked(lx);
    assert Join([]) + key == key;
    lx' := OneStep(lx);
  }

  lemma ClosePlainKey(lx: Lexer, top: bool, k: Stack, key: string, sep: char, rest: string) returns (lx': Lexer)
    requires At(lx, PlainKeyOf(top), k, [sep] + rest) && lx.input[lx.start..lx.pos] == key && SepOk(sep)
    requires sep == ' ' ==> Lower(key) != "include"
    ensures At(lx', KeyEndOf(top), k, [sep] + rest) && Sends(lx, [Bare(KeyItem, key)], lx')
  {
    hide At, Sends;
    if top {
      lx' := ClosePlainKeyAtTop(lx, k, key, sep, rest);
    } else {
      lx' := ClosePlainKeyInMap(lx, k, key, sep, rest);
    }
  }

  lemma ReadPlainKey(lx: Lexer, top: bool, k: Stack, key: string, sep: char, rest: string) returns (lx': Lexer)
    requires At(lx, KeyStartOf(top), k, key + ([sep] + rest)) && KeyOk(key, Unquoted, sep) && SepOk(sep)
    ensures At(lx', KeyEndOf(top), k, [sep] + rest) && Sends(lx, [Bare(KeyItem, key)], lx')
  {
    hide At, Sends, KeyRuneOk, Lower;
    TextRead(lx, KeyStartOf(top), k, key, [sep] + rest);
    assert key + ([sep] + rest) == [key[0]] + (key[1..] + ([sep] + rest));
    var a := OpenPlainKey(lx, top, k, key[0], key[1..] + ([sep] + rest));
    var b := PlainKeyRunes(a, top, k, key[1..], [sep] + rest);
    lx' := ClosePlainKey(b, top, k, key, sep, rest);
    SendsThen(lx, [], a, [], b);
    SendsThen(lx, [], b, [Bare(KeyItem, key)], lx');
    assert [] + [Bare(KeyItem, key)] == [Bare(KeyItem, key)];
  }

  function ValueState(top: bool): State { if top then Value else MapValue }

  /** The separator after a key, up to the rune that starts the value. */
  lemma Separate(lx: Lexer, top: bool, k: Stack, sep: char, c: char, rest: string) returns (lx': Lexer)
    requires At(lx, KeyEndOf(top), k, [sep] + ([c] + rest)) && SepOk(sep) && StartsValue(c)
    ensures At(lx', ValueState(top), k, [c] + rest) && lx'.start == lx'.pos && Sends(lx, [], lx')
  {
    hide At, Sends, StartsValue;
    if sep == ' ' {
      lx' := SeparateBySpace(lx, top, k, c, rest);
    } else {
      lx' := SeparateBySign(lx, top, k, sep, [c] + rest);
    }
  }

  lemma SeparateBySignAtTop(lx: Lexer, k: Stack, sep: char, rest: string) returns (lx': Lexer)
    requires At(lx, KeyEndOf(true), k, [sep] + rest) && (sep == ':' || sep == '=')
    ensures At(lx', ValueState(true), k, rest) && lx'.start == lx'.pos && Sends(lx, [], lx')
  {
    hide Good, Run, Sends, Next, Peeked, Ignore, Keeps, RoleOf, Rank;
    UnreadNext(lx, sep, rest);
    var skip := OneStep(lx);
    lx' := AfterSkip(lx, [], skip, ValueState(true), k, rest);
  }

  lemma SeparateBySignInMap(lx: Lexer, k: Stack, sep: char, rest: string) returns (lx': Lexer)
    requires At(lx, KeyEndOf(false), k, [sep] + rest) && (sep == ':' || sep == '=')
    ensures At(lx', ValueState(false), k, rest) && lx'.start == lx'.pos && Sends(lx, [], lx')
  {
    hide Good, Run, Sends, Next, Peeked, Ignore, Keeps, RoleOf, Rank;
    UnreadNext(lx, sep, rest);
    var skip := OneStep(lx);
    lx' := AfterSkip(lx, [], skip, ValueState(false), k, rest);
  }

  lemma SeparateBySign(lx: Lexer, top: bool, k: Stack, sep: char, rest: string) returns (lx': Lexer)
    requires At(lx, KeyEndOf(top), k, [sep] + rest) && (sep == ':' || sep == '=')
    ensures At(lx', ValueState(top), k, rest) && lx'.start == lx'.pos && Sends(lx, [], lx')
  {
    hide At, Sends;
    if top {
      lx' := SeparateBySignAtTop(lx, k, sep, rest);
    } else {
      lx' := SeparateBySignInMap(lx, k, sep, rest);
    }
  }

  lemma SeparateBySpace(lx: Lexer, top: bool, k: Stack, c: char, rest: string) returns (lx': Lexer)
    requires At(lx, KeyEndOf(top), k, [' '] + ([c] + rest)) && StartsValue(c)
    ensures At(lx', ValueState(top), k, [c] + rest) && lx'.start == lx'.pos && Sends(lx, [], lx')
  {
    var a := SkipSpace(lx, top, k, [c] + rest);
    lx' := BeginValue(a, top, k, c, rest);
    hide At, Sends;
    SendsThen(lx, [], a, [], lx');
  }

  lemma SkipSpace(lx: Lexer, top: bool, k: Stack, rest: string) returns (lx': Lexer)
    requires At(lx, KeyEndOf(top), k, [' '] + rest)
    ensures At(lx', KeyEndOf(top), k, rest) && lx'.start == lx'.pos && Sends(lx, [], lx')
  {
    hide Good, Run, Sends, Next, Peeked, Ignore, Keeps, RoleOf, Rank;
    UnreadNext(lx, ' ', rest);
    var skip := OneStep(lx);
    lx' := AfterSkip(lx, [], skip, KeyEndOf(top), k, rest);
  }

  lemma BeginValueAtTop(lx: Lexer, k: Stack, c: char, rest: string) returns (lx': Lexer)
    requires At(lx, KeyEndOf(true), k, [c] + rest) && StartsValue(c) && lx.start == lx.pos
    ensures At(lx', ValueState(true), k, [c] + rest) && lx'.start == lx'.pos && Sends(lx, [], lx')
  {
    hide Good, Run, Sends, Next, Peeked, Ignore, Keeps, RoleOf, Rank;
    UnreadNext(lx, c, rest);
    UnreadPeeked(lx);
    lx' := OneStep(lx);
  }

  lemma BeginValueInMap(lx: Lexer, k: Stack, c: char, rest: string) returns (lx': Lexer)
    requires At(lx, KeyEndOf(false), k, [c] + rest) && StartsValue(c) && lx.start == lx.pos
    ensures At(lx', ValueState(false), k, [c] + rest) && lx'.start == lx'.pos && Sends(lx, [], lx')
  {
    hide Good, Run, Sends, Next, Peeked, Ignore, Keeps, RoleOf, Rank;
    UnreadNext(lx, c, rest);
    UnreadPeeked(lx);
    lx' := OneStep(lx);
  }

  lemma BeginValue(lx: Lexer, top: bool, k: Stack, c: char, rest: string) returns (lx': Lexer)
    requires At(lx, KeyEndOf(top), k, [c] + rest) && StartsValue(c) && lx.start == lx.pos
    ensures At(lx', ValueState(top), k, [c] + rest) && lx'.start == lx'.pos && Sends(lx, [], lx')
  {
    hide At, Sends;
    if top {
      lx' := BeginValueAtTop(lx, k, c, rest);
    } else {
      lx' := BeginValueInMap(lx, k, c, rest);
    }
  }

  lemma EnterFieldValue(lx: Lexer, k: Stack, c: char, rest: string) returns (lx': Lexer)
    requires At(lx, MapValue, k, [c] + rest) && StartsValue(c) && lx.start == lx.pos
    ensures At(lx', Value, On(MapValueEnd, k), [c] + rest) && lx'.start == lx'.pos && Sends(lx, [], lx')
  {
    hide Good, Run, Sends, Next, Peeked, Ignore, Keeps, RoleOf, Rank;
    UnreadNext(lx, c, rest);
    lx' := OneStep(lx);
  }

  // ---------- Comments ----------

  lemma EnterComment(lx: Lexer, s: State, k: Stack, slashes: bool, rest: string) returns (lx': Lexer)
    requires At(lx, s, k, (if slashes then "//" else "#") + rest) && (s.Top? || s.MapKeyStart?)
    ensures At(lx', CommentStart, On(s, k), rest) && Sends(lx, [], lx')
  {
    if slashes {
      lx' := EnterSlashes(lx, s, k, rest);
    } else {
      lx' := EnterHash(lx, s, k, rest);
    }
  }

  lemma EnterHashAtTop(lx: Lexer, k: Stack, rest: string) returns (lx': Lexer)
    requires At(lx, Top, k, "#" + rest)
    ensures At(lx', CommentStart, On(Top, k), rest) && Sends(lx, [], lx')
  {
    hide Good, Run, Sends, Next, Peeked, Ignore, Keeps, RoleOf, Rank;
    UnreadNext(lx, '#', rest);
    lx' := OneStep(lx);
  }

  lemma EnterHashInMap(lx: Lexer, k: Stack, rest: string) returns (lx': Lexer)
    requires At(lx, MapKeyStart, k, "#" + rest)
    ensures At(lx', CommentStart, On(MapKeyStart, k), rest) && Sends(lx, [], lx')
  {
    hide Good, Run, Sends, Next, Peeked, Ignore, Keeps, RoleOf, Rank;
    UnreadNext(lx, '#', rest);
    lx' := OneStep(lx);
  }

  lemma EnterHash(lx: Lexer, s: State, k: Stack, rest: string) returns (lx': Lexer)
    requires At(lx, s, k, "#" + rest) && (s.Top? || s.MapKeyStart?)
    ensures At(lx', CommentStart, On(s, k), rest) && Sends(lx, [], lx')
  {
    hide At, Sends;
    if s.Top? {
      lx' := EnterHashAtTop(lx, k, rest);
    } else {
      lx' := EnterHashInMap(lx, k, rest);
    }
  }

  lemma CommentEntersAtTop(lx: Lexer)
    requires Good(lx) && lx.state.Top? && lx.parts == [] && Rune(lx) == '/' && Rune(Next(lx)) == '/'
    ensures Step(lx) == Stepped(Next(Next(lx)).(state := CommentStart, stack := On(Top, lx.stack)), [])
  {
    hide Good, Keeps, RoleOf, Rank, Next, Peeked, Ignore;
  }

  lemma EnterSlashesAtTop(lx: Lexer, k: Stack, rest: string) returns (lx': Lexer)
    requires At(lx, Top, k, "//" + rest)
    ensures At(lx', CommentStart, On(Top, k), rest) && Sends(lx, [], lx')
  {
    hide Good, Run, Sends, Next, Peeked, Ignore, Keeps, RoleOf, Rank;
    assert "//" + rest == ['/'] + (['/'] + rest);
    UnreadNext(lx, '/', ['/'] + rest);
    UnreadNext(Next(lx), '/', rest);
    CommentEntersAtTop(lx);
    hide Step;
    lx' := OneStep(lx);
  }

  lemma CommentEntersInMap(lx: Lexer)
    requires Good(lx) && lx.state.MapKeyStart? && lx.parts == [] && Rune(lx) == '/' && Rune(Next(lx)) == '/'
    ensures Step(lx) == Stepped(Next(Next(lx)).(state := CommentStart, stack := On(MapKeyStart, lx.stack)), [])
  {
    hide Good, Keeps, RoleOf, Rank, Next, Peeked, Ignore;
  }

  lemma EnterSlashesInMap(lx: Lexer, k: Stack, rest: string) returns (lx': Lexer)
    requires At(lx, MapKeyStart, k, "//" + rest)
    ensures At(lx', CommentStart, On(MapKeyStart, k), rest) && Sends(lx, [], lx')
  {
    hide Good, Run, Sends, Next, Peeked, Ignore, Keeps, RoleOf, Rank;
    assert "//" + rest == ['/'] + (['/'] + rest);
    UnreadNext(lx, '/', ['/'] + rest);
    UnreadNext(Next(lx), '/', rest);
    CommentEntersInMap(lx);
    hide Step;
    lx' := OneStep(lx);
  }

  lemma EnterSlashes(lx: Lexer, s: State, k: Stack, rest: string) returns (lx': Lexer)
    requires At(lx, s, k, "//" + rest) && (s.Top? || s.MapKeyStart?)
    ensures At(lx', CommentStart, On(s, k), rest) && Sends(lx, [], lx')
  {
    hide At, Sends;
    if s.Top? {
      lx' := EnterSlashesAtTop(lx, k, rest);
    } else {
      lx' := EnterSlashesInMap(lx, k, rest);
    }
  }

  lemma BeginComment(lx: Lexer, k: Stack, rest: string) returns (lx': Lexer)
    requires At(lx, CommentStart, k, rest)
    ensures At(lx', Comment, k, rest) && lx'.start == lx'.pos && Sends(lx, [Bare(CommentStartItem, "")], lx')
  {
    hide Good, Run, Sends, Next, Peeked, Keeps, RoleOf, Rank;
    lx' := OneStep(lx);
  }

  lemma CommentRune(lx: Lexer, k: Stack, c: char, rest: string) returns (lx': Lexer)
    requires At(lx, Comment, k, [c] + rest) && !IsNL(c) && c != EOF
    ensures At(lx', Comment, k, rest) && lx'.start == lx.start && lx'.input == lx.input && lx'.pos == lx.pos + 1
    ensures Sends(lx, [], lx')
  {
    hide Good, Run, Sends, Next, Peeked, Ignore, Keeps, RoleOf, Rank, Emitted;
    UnreadNext(lx, c, rest);
    UnreadPeeked(lx);
    lx' := OneStep(lx);
  }

  lemma {:induction false} CommentRunes(lx: Lexer, k: Stack, text: string, rest: string) returns (lx': Lexer)
    requires At(lx, Comment, k, text + rest) && forall i :: 0 <= i < |text| ==> !IsNL(text[i]) && text[i] != EOF
    ensures At(lx', Comment, k, rest) && lx'.start == lx.start && lx'.input == lx.input && lx'.pos == lx.pos + |text|
    ensures Sends(lx, [], lx')
    decreases |text|
  {
    hide Good, Run, Bared;
    if text == "" {
      lx' := lx;
      assert text + rest == rest;
      assert [] + Bared(Run(lx)) == Bared(Run(lx));
    } else {
      assert text + rest == [text[0]] + (text[1..] + rest);
      var mid := CommentRune(lx, k, text[0], text[1..] + rest);
      lx' := CommentRunes(mid, k, text[1..], rest);
      SendsThen(lx, [], mid, [], lx');
    }
  }

  lemma EndComment(lx: Lexer, ret: State, k: Stack, text: string, rest: string) returns (lx': Lexer)
    requires At(lx, Comment, On(ret, k), "\n" + rest) && lx.input[lx.start..lx.pos] == text
    ensures At(lx', ret, k, "\n" + rest) && Sends(lx, [Bare(TextItem, text)], lx')
  {
    hide Good, Run, Sends, Next, Peeked, Ignore, Keeps, RoleOf, Rank;
    UnreadNext(lx, '\n', rest);
    UnreadPeeked(lx);
    assert Join([]) + text == text;
    lx' := OneStep(lx);
  }

  lemma SkipNewline(lx: Lexer, s: State, k: Stack, rest: string) returns (lx': Lexer)
    requires At(lx, s, k, "\n" + rest) && (s.Top? || s.MapKeyStart?)
    ensures At(lx', s, k, rest) && lx'.start == lx'.pos && Sends(lx, [], lx')
  {
    hide Good, Run, Sends, Next, Peeked, Ignore, Keeps, RoleOf, Rank;
    UnreadNext(lx, '\n', rest);
    UnreadPeeked(lx);
    var skip := OneStep(lx);
    lx' := AfterSkip(lx, [], skip, s, k, rest);
  }

  lemma ReadComment(lx: Lexer, s: State, k: Stack, slashes: bool, text: string, rest: string) returns (lx': Lexer)
    requires At(lx, s, k, (if slashes then "//" else "#") + (text + ("\n" + rest))) && (s.Top? || s.MapKeyStart?)
    requires forall i :: 0 <= i < |text| ==> !IsNL(text[i]) && text[i] != EOF
    ensures At(lx', s, k, rest) && lx'.start == lx'.pos
    ensures Sends(lx, [Bare(CommentStartItem, "")] + [Bare(TextItem, text)], lx')
  {
    hide At, Sends;
    var k' := On(s, k);
    var a := EnterComment(lx, s, k, slashes, text + ("\n" + rest));
    var b := BeginComment(a, k', text + ("\n" + rest));
    TextRead(b, Comment, k', text, "\n" + rest);
    var c := CommentRunes(b, k', text, "\n" + rest);
    var d := EndComment(c, s, k, text, rest);
    lx' := SkipNewline(d, s, k, rest);
    var mark, line := [Bare(CommentStartItem, "")], [Bare(TextItem, text)];
    SendsThen(lx, [], a, mark, b);
    SendsThen(lx, [] + mark, b, [], c);
    SendsThen(lx, [] + mark + [], c, line, d);
    SendsThen(lx, [] + mark + [] + line, d, [], lx');
    assert [] + mark + [] + line + [] == mark + line;
  }

  /** The comment line before a field, if there is one. */
  lemma ReadNote(lx: Lexer, s: State, k: Stack, note: Note, rest: string) returns (lx': Lexer)
    requires At(lx, s, k, NoteText(note) + rest) && (s.Top? || s.MapKeyStart?) && NoteOk(note)
    ensures At(lx', s, k, rest) && (lx.start == lx.pos ==> lx'.start == lx'.pos) && Sends(lx, NoteItems(note), lx')
  {
    hide At, Sends;
    match note
    case NoNote =>
      assert NoteText(note) + rest == rest;
      lx' := lx;
      SendsNothing(lx, s, k, rest);
    case Hash(text) =>
      assert NoteText(note) + rest == "#" + (text + ("\n" + rest));
      lx' := ReadComment(lx, s, k, false, text, rest);
    case Slashes(text) =>
      assert NoteText(note) + rest == "//" + (text + ("\n" + rest));
      lx' := ReadComment(lx, s, k, true, text, rest);
  }

  // ---------- Strings ----------

  /** What a string holds so far: the parts kept and the text since. */
  function Content(lx: Lexer): string
    requires Positioned(lx)
  {
    Join(lx.parts) + lx.input[lx.start..lx.pos]
  }

  lemma {:induction false} JoinAppend(parts: seq<string>, p: string)
    ensures Join(parts + [p]) == Join(parts) + p
  {
    if parts == [] {
      assert parts + [p] == [p];
      assert Join([p]) == p + Join([]);
    } else {
      assert (parts + [p])[1..] == parts[1..] + [p];
      JoinAppend(parts[1..], p);
    }
  }

  /** A lexer inside a quoted string, or inside one of its escapes. */
  predicate Within(lx: Lexer, s: State, k: Stack, text: string) {
    && Positioned(lx) && Good(lx) && lx.state == s && lx.stack == k && Unread(lx) == text
    && lx.stringState.DubQuotedString?
  }

  lemma OpenString(lx: Lexer, k: Stack, rest: string) returns (lx': Lexer)
    requires At(lx, Value, k, "\"" + rest)
    ensures Within(lx', DubQuotedString, k, rest) && Content(lx') == "" && Sends(lx, [], lx')
  {
    hide Good, Run, Sends, Next, Peeked, Ignore, Keeps, RoleOf, Rank;
    UnreadNext(lx, '"', rest);
    lx' := OneStep(lx);
  }

  lemma PlainRune(lx: Lexer, k: Stack, c: char, rest: string) returns (lx': Lexer)
    requires Within(lx, DubQuotedString, k, [c] + rest) && c != '"' && c != '\\' && c != EOF
    ensures Within(lx', DubQuotedString, k, rest) && Content(lx') == Content(lx) + [c] && Sends(lx, [], lx')
  {
    hide Good, Run, Sends, Next, Peeked, Ignore, Keeps, RoleOf, Rank;
    UnreadNext(lx, c, rest);
    lx' := OneStep(lx);
    assert lx.input[lx.start..lx.pos + 1] == lx.input[lx.start..lx.pos] + [c];
  }

  lemma Backslash(lx: Lexer, k: Stack, rest: string) returns (lx': Lexer)
    requires Within(lx, DubQuotedString, k, "\\" + rest)
    ensures Within(lx', StringEscape, k, rest) && Join(lx'.parts) == Content(lx) && Sends(lx, [], lx')
  {
    hide Good, Run, Sends, Next, Peeked, Ignore, Join, Keeps, RoleOf, Rank;
    UnreadNext(lx, '\\', rest);
    lx' := OneStep(lx);
    JoinAppend(lx.parts, lx.input[lx.start..lx.pos]);
  }

  lemma EscapedRune(lx: Lexer, k: Stack, c: char, rest: string) returns (lx': Lexer)
    requires Within(lx, StringEscape, k, [c] + rest) && (c == '"' || c == '\\')
    ensures Within(lx', DubQuotedString, k, rest) && Content(lx') == Join(lx.parts) + [c] && Sends(lx, [], lx')
  {
    hide Good, Run, Sends, Next, Peeked, Ignore, Keeps, RoleOf, Rank;
    UnreadNext(lx, c, rest);
    lx' := OneStep(lx);
    JoinAppend(lx.parts, [c]);
  }

  lemma EscapeHex(lx: Lexer, k: Stack, rest: string) returns (lx': Lexer)
    requires Within(lx, StringEscape, k, "x" + rest)
    ensures Within(lx', StringBinary, k, rest) && lx'.parts == lx.parts && Sends(lx, [], lx')
  {
    hide Good, Run, Sends, Next, Peeked, Ignore, Keeps, RoleOf, Rank;
    UnreadNext(lx, 'x', rest);
    lx' := OneStep(lx);
  }

  lemma HexNul(lx: Lexer, k: Stack, rest: string) returns (lx': Lexer)
    requires Within(lx, StringBinary, k, "0" + ("0" + rest))
    ensures Within(lx', DubQuotedString, k, rest) && Content(lx') == Join(lx.parts) + [EOF] && Sends(lx, [], lx')
  {
    hide Good, Run, Sends, Next, Peeked, Ignore, Keeps, RoleOf, Rank;
    UnreadNext(lx, '0', "0" + rest);
    UnreadNext(Next(lx), '0', rest);
    lx' := OneStep(lx);
    JoinAppend(lx.parts, [EOF]);
  }

  /** One rune of a string, escaped where it must be. */
  lemma StringRune(lx: Lexer, k: Stack, c: char, rest: string) returns (lx': Lexer)
    requires Within(lx, DubQuotedString, k, EscapeChar(c) + rest)
    ensures Within(lx', DubQuotedString, k, rest) && Content(lx') == Content(lx) + [c] && Sends(lx, [], lx')
  {
    hide Good, Run, Bared, Content;
    if c == '"' || c == '\\' {
      assert EscapeChar(c) + rest == "\\" + ([c] + rest);
      var e := Backslash(lx, k, [c] + rest);
      lx' := EscapedRune(e, k, c, rest);
      SendsThen(lx, [], e, [], lx');
    } else if c == EOF {
      assert EscapeChar(c) + rest == "\\" + ("x" + ("0" + ("0" + rest)));
      var e := Backslash(lx, k, "x" + ("0" + ("0" + rest)));
      var h := EscapeHex(e, k, "0" + ("0" + rest));
      lx' := HexNul(h, k, rest);
      SendsThen(lx, [], e, [], h);
      SendsThen(lx, [], h, [], lx');
    } else {
      lx' := PlainRune(lx, k, c, rest);
    }
  }

  lemma {:induction false} StringRunes(lx: Lexer, k: Stack, s: string, rest: string) returns (lx': Lexer)
    requires Within(lx, DubQuotedString, k, Escape(s) + rest)
    ensures Within(lx', DubQuotedString, k, rest) && Content(lx') == Content(lx) + s && Sends(lx, [], lx')
    decreases |s|
  {
    hide Good, Run, Bared, Content, EscapeChar;
    if s == "" {
      lx' := lx;
      assert Escape(s) + rest == rest;
      assert Content(lx) + s == Content(lx);
      assert [] + Bared(Run(lx)) == Bared(Run(lx));
    } else {
      assert Escape(s) + rest == EscapeChar(s[0]) + (Escape(s[1..]) + rest);
      var mid := StringRune(lx, k, s[0], Escape(s[1..]) + rest);
      lx' := StringRunes(mid, k, s[1..], rest);
      SendsThen(lx, [], mid, [], lx');
      assert Content(lx) + [s[0]] + s[1..] == Content(lx) + s;
    }
  }

  lemma CloseString(lx: Lexer, ret: State, k: Stack, rest: string) returns (lx': Lexer)
    requires Within(lx, DubQuotedString, On(ret, k), "\"" + rest)
    ensures At(lx', ret, k, rest) && Sends(lx, [Bare(StringItem, Content(lx))], lx')
  {
    hide Good, Run, Sends, Next, Peeked, Ignore, Keeps, RoleOf, Rank;
    UnreadNext(lx, '"', rest);
    UnreadPeeked(lx);
    lx' := OneStep(lx);
  }

  // ---------- Numbers and booleans ----------

  predicate NumberState(s: State) { s.Number? || s.NegNumber? }

  /** The first rune of a number: a digit is looked at again, a minus is read. */
  lemma EnterNumber(lx: Lexer, k: Stack, c: char, rest: string) returns (lx': Lexer)
    requires At(lx, Value, k, [c] + rest) && (IsDigit(c) || c == '-')
    ensures At(lx', if c == '-' then NegNumberStart else NumberStart, k, if c == '-' then rest else [c] + rest)
    ensures lx'.start == lx.start && lx'.input == lx.input && lx'.pos == (if c == '-' then lx.pos + 1 else lx.pos)
    ensures Sends(lx, [], lx')
  {
    hide Good, Run, Sends, Next, Peeked, Ignore, Keeps, RoleOf, Rank;
    UnreadNext(lx, c, rest);
    UnreadPeeked(lx);
    lx' := OneStep(lx);
  }

  lemma FirstDigit(lx: Lexer, neg: bool, k: Stack, c: char, rest: string) returns (lx': Lexer)
    requires At(lx, if neg then NegNumberStart else NumberStart, k, [c] + rest) && IsDigit(c)
    ensures At(lx', if neg then NegNumber else Number, k, rest)
    ensures lx'.start == lx.start && lx'.input == lx.input && lx'.pos == lx.pos + 1
    ensures Sends(lx, [], lx')
  {
    hide Good, Run, Sends, Next, Peeked, Ignore, Keeps, RoleOf, Rank;
    UnreadNext(lx, c, rest);
    ScalarState(lx.state);
    DigitGoes(lx);
    hide Step;
    lx' := OneStep(lx);
  }

  lemma DigitGoes(lx: Lexer)
    requires Good(lx) && (lx.state.NumberStart? || lx.state.NegNumberStart?) && IsDigit(Rune(lx)) && RoleOf(lx.state).ScalarRole?
    ensures Step(lx) == Stepped(Next(lx).(state := if lx.state.NumberStart? then Number else NegNumber), [])
  {
    hide Good, Keeps, RoleOf, Rank, Next, Peeked, Ignore, Emitted, SendValue;
  }

  lemma NextDigit(lx: Lexer, s: State, k: Stack, c: char, rest: string) returns (lx': Lexer)
    requires At(lx, s, k, [c] + rest) && NumberState(s) && IsDigit(c)
    ensures At(lx', s, k, rest) && lx'.start == lx.start && lx'.input == lx.input && lx'.pos == lx.pos + 1
    ensures Sends(lx, [], lx')
  {
    hide Good, Run, Sends, Next, Peeked, Ignore, Keeps, RoleOf, Rank, Emitted, Join, SendValue;
    UnreadNext(lx, c, rest);
    lx' := OneStep(lx);
  }

  lemma {:induction false} MoreDigits(lx: Lexer, s: State, k: Stack, ds: string, rest: string) returns (lx': Lexer)
    requires At(lx, s, k, ds + rest) && NumberState(s) && forall i :: 0 <= i < |ds| ==> IsDigit(ds[i])
    ensures At(lx', s, k, rest) && lx'.start == lx.start && lx'.input == lx.input && lx'.pos == lx.pos + |ds|
    ensures Sends(lx, [], lx')
    decreases |ds|
  {
    hide Good, Run, Bared;
    if ds == "" {
      lx' := lx;
      assert ds + rest == rest;
      assert [] + Bared(Run(lx)) == Bared(Run(lx));
    } else {
      assert ds + rest == [ds[0]] + (ds[1..] + rest);
      var mid := NextDigit(lx, s, k, ds[0], ds[1..] + rest);
      lx' := MoreDigits(mid, s, k, ds[1..], rest);
      SendsThen(lx, [], mid, [], lx');
    }
  }

  /** Runes that end a value; a bracket does not end every number. */
  predicate EndsRune(c: char) { c == ',' || c == ';' || c == '\n' || c == '}' || c == EOF }

  predicate EndsNumeral(c: char, neg: bool) { EndsRune(c) || (neg && c == ']') }

  /** What follows ends a value in this way. */
  predicate EndsBy(rest: string, bracket: bool) {
    rest == "" || EndsRune(rest[0]) || (bracket && rest[0] == ']')
  }

  lemma NumberEnds(lx: Lexer)
    requires Good(lx) && NumberState(lx.state) && EndsNumeral(Rune(lx), lx.state.NegNumber?) && RoleOf(lx.state).ScalarRole?
    ensures Step(lx) == SendValue(lx, Ignore(Peeked(lx)), Emitted(Peeked(lx), IntegerItem))
  {
    hide Good, Keeps, RoleOf, Rank, Next, Peeked, Ignore, Emitted, SendValue;
  }

  lemma EndNumber(lx: Lexer, s: State, ret: State, k: Stack, rest: string) returns (lx': Lexer)
    requires At(lx, s, On(ret, k), rest) && NumberState(s) && EndsBy(rest, s.NegNumber?)
    ensures At(lx', ret, k, rest) && Sends(lx, [Bare(IntegerItem, lx.input[lx.start..lx.pos])], lx')
  {
    hide Good, Run, Sends, Next, Peeked, Ignore, Keeps, RoleOf, Rank;
    RuneAhead(lx, rest);
    UnreadPeeked(lx);
    assert Join([]) + lx.input[lx.start..lx.pos] == lx.input[lx.start..lx.pos];
    ScalarState(lx.state);
    NumberEnds(lx);
    hide Step;
    lx' := OneStep(lx);
  }

  /** What has been read is the text that was ahead. */
  lemma TextRead(lx: Lexer, s: State, k: Stack, text: string, rest: string)
    requires At(lx, s, k, text + rest)
    ensures lx.start <= lx.pos && lx.pos + |text| <= |lx.input| && lx.input[lx.pos..lx.pos + |text|] == text
  {
    hide Good;
    assert lx.input[lx.pos..lx.pos + |text|] == Unread(lx)[..|text|];
  }

  /** The sign and the digits of a numeral. */
  lemma ReadDigits(lx: Lexer, k: Stack, n: int, rest: string) returns (lx': Lexer)
    requires At(lx, Value, k, Numeral(n) + rest) && lx.start == lx.pos
    ensures At(lx', if n < 0 then NegNumber else Number, k, rest)
    ensures lx'.start == lx.start && lx'.input == lx.input && lx'.pos == lx.pos + |Numeral(n)| && Sends(lx, [], lx')
  {
    hide At, Sends, NatNumeral;
    var neg := n < 0;
    var ds := if neg then NatNumeral(-n) else NatNumeral(n);
    var tail := ds[1..] + rest;
    if neg {
      assert Numeral(n) + rest == ['-'] + (ds + rest);
    } else {
      assert Numeral(n) + rest == [ds[0]] + tail;
    }
    assert ds + rest == [ds[0]] + tail;
    var a := EnterNumber(lx, k, if neg then '-' else ds[0], if neg then ds + rest else tail);
    var b := FirstDigit(a, neg, k, ds[0], tail);
    lx' := MoreDigits(b, if neg then NegNumber else Number, k, ds[1..], rest);
    SendsThen(lx, [], a, [], b);
    SendsThen(lx, [], b, [], lx');
  }

  lemma ReadNumber(lx: Lexer, ret: State, k: Stack, n: int, rest: string) returns (lx': Lexer)
    requires At(lx, Value, On(ret, k), Numeral(n) + rest) && lx.start == lx.pos && EndsBy(rest, n < 0)
    ensures At(lx', ret, k, rest) && Sends(lx, [Bare(IntegerItem, Numeral(n))], lx')
  {
    hide At, Sends, Numeral;
    TextRead(lx, Value, On(ret, k), Numeral(n), rest);
    var a := ReadDigits(lx, On(ret, k), n, rest);
    lx' := EndNumber(a, if n < 0 then NegNumber else Number, ret, k, rest);
    SendsThen(lx, [], a, [Bare(IntegerItem, Numeral(n))], lx');
    assert [] + [Bare(IntegerItem, Numeral(n))] == [Bare(IntegerItem, Numeral(n))];
  }

  lemma SizeLetterIsSuffix(c: char)
    requires SizeLetter(c)
    ensures IsNumberSuffix(c) && !IsDigit(c) && c != '-' && c != '.'
  {
  }

  lemma SuffixGoes(lx: Lexer)
    requires Good(lx) && NumberState(lx.state) && RoleOf(lx.state).ScalarRole?
    requires IsNumberSuffix(Rune(lx)) && !IsDigit(Rune(lx)) && Rune(lx) != '-' && Rune(lx) != '.'
    ensures Step(lx) == Stepped(Next(lx).(state := ConvenientNumber), [])
  {
    hide Good, Keeps, RoleOf, Rank, Next, Peeked, Ignore, Emitted, SendValue, IsNumberSuffix;
  }

  /** The letter of a size, and the runes after it. */
  lemma SizeLetterRead(lx: Lexer, s: State, k: Stack, c: char, rest: string) returns (lx': Lexer)
    requires At(lx, s, k, [c] + rest) && NumberState(s) && SizeLetter(c)
    ensures At(lx', ConvenientNumber, k, rest) && lx'.start == lx.start && lx'.input == lx.input && lx'.pos == lx.pos + 1
    ensures Sends(lx, [], lx')
  {
    SizeLetterIsSuffix(c);
    hide Good, Run, Sends, Next, Peeked, Ignore, Keeps, RoleOf, Rank, Emitted, Join, SendValue, SizeLetter, IsNumberSuffix;
    UnreadNext(lx, c, rest);
    ScalarState(lx.state);
    SuffixGoes(lx);
    hide Step;
    lx' := OneStep(lx);
  }

  lemma SizeRuneRead(lx: Lexer, k: Stack, c: char, rest: string) returns (lx': Lexer)
    requires At(lx, ConvenientNumber, k, [c] + rest) && (c == 'b' || c == 'B' || c == 'i' || c == 'I')
    ensures At(lx', ConvenientNumber, k, rest) && lx'.start == lx.start && lx'.input == lx.input && lx'.pos == lx.pos + 1
    ensures Sends(lx, [], lx')
  {
    hide Good, Run, Sends, Next, Peeked, Ignore, Keeps, RoleOf, Rank, Emitted, Join, SendValue;
    UnreadNext(lx, c, rest);
    lx' := OneStep(lx);
  }

  lemma {:induction false} SizeRunes(lx: Lexer, k: Stack, s: string, rest: string) returns (lx': Lexer)
    requires At(lx, ConvenientNumber, k, s + rest) && forall i :: 0 <= i < |s| ==> s[i] in "biBI"
    ensures At(lx', ConvenientNumber, k, rest) && lx'.start == lx.start && lx'.input == lx.input && lx'.pos == lx.pos + |s|
    ensures Sends(lx, [], lx')
    decreases |s|
  {
    hide Good, Run, Bared;
    if s == "" {
      lx' := lx;
      assert s + rest == rest;
      assert [] + Bared(Run(lx)) == Bared(Run(lx));
    } else {
      assert s + rest == [s[0]] + (s[1..] + rest);
      var mid := SizeRuneRead(lx, k, s[0], s[1..] + rest);
      lx' := SizeRunes(mid, k, s[1..], rest);
      SendsThen(lx, [], mid, [], lx');
    }
  }

  /** A size up to its last rune. */
  lemma ReadSize(lx: Lexer, k: Stack, n: int, letter: char, ending: string, rest: string) returns (lx': Lexer)
    requires At(lx, Value, k, Numeral(n) + ([letter] + ending) + rest) && lx.start == lx.pos
    requires SizeLetter(letter) && forall i :: 0 <= i < |ending| ==> ending[i] in "biBI"
    ensures At(lx', ConvenientNumber, k, rest) && lx'.start <= lx'.pos <= |lx'.input|
    ensures lx'.input[lx'.start..lx'.pos] == Numeral(n) + ([letter] + ending) && Sends(lx, [], lx')
  {
    hide At, Sends, Numeral, SizeLetter;
    var text := Numeral(n) + ([letter] + ending);
    TextRead(lx, Value, k, text, rest);
    assert text + rest == Numeral(n) + ([letter] + (ending + rest));
    var s := if n < 0 then NegNumber else Number;
    var a := ReadDigits(lx, k, n, [letter] + (ending + rest));
    var b := SizeLetterRead(a, s, k, letter, ending + rest);
    lx' := SizeRunes(b, k, ending, rest);
    SendsThen(lx, [], a, [], b);
    SendsThen(lx, [], b, [], lx');
  }

  lemma SizeEnds(lx: Lexer)
    requires Good(lx) && lx.state.ConvenientNumber? && EndsRune(Rune(lx)) && RoleOf(lx.state).ScalarRole?
    ensures Step(lx) == SendValue(lx, Ignore(Peeked(lx)), Emitted(Peeked(lx), IntegerItem))
  {
    hide Good, Keeps, RoleOf, Rank, Next, Peeked, Ignore, Emitted, SendValue;
  }

  lemma EndSize(lx: Lexer, ret: State, k: Stack, text: string, rest: string) returns (lx': Lexer)
    requires At(lx, ConvenientNumber, On(ret, k), rest) && EndsBy(rest, false) && lx.input[lx.start..lx.pos] == text
    ensures At(lx', ret, k, rest) && Sends(lx, [Bare(IntegerItem, text)], lx')
  {
    hide Good, Run, Sends, Next, Peeked, Ignore, Keeps, RoleOf, Rank;
    RuneAhead(lx, rest);
    UnreadPeeked(lx);
    assert Join([]) + text == text;
    ScalarState(lx.state);
    SizeEnds(lx);
    hide Step;
    lx' := OneStep(lx);
  }

  lemma ReadSized(lx: Lexer, ret: State, k: Stack, n: int, letter: char, ending: string, rest: string) returns (lx': Lexer)
    requires At(lx, Value, On(ret, k), Numeral(n) + ([letter] + ending) + rest) && lx.start == lx.pos && EndsBy(rest, false)
    requires SizeLetter(letter) && SizeEnding(ending)
    ensures At(lx', ret, k, rest) && Sends(lx, [Bare(IntegerItem, Numeral(n) + ([letter] + ending))], lx')
  {
    EndingRunes(ending);
    hide At, Sends, Numeral, SizeLetter, SizeEnding;
    var text := Numeral(n) + ([letter] + ending);
    var a := ReadSize(lx, On(ret, k), n, letter, ending, rest);
    lx' := EndSize(a, ret, k, text, rest);
    SendsThen(lx, [], a, [Bare(IntegerItem, text)], lx');
    assert [] + [Bare(IntegerItem, text)] == [Bare(IntegerItem, text)];
  }

  lemma EnterRaw(lx: Lexer, k: Stack, c: char, rest: string) returns (lx': Lexer)
    requires At(lx, Value, k, [c] + rest) && (Letter(c) || c == '$')
    ensures At(lx', RawString, k, [c] + rest) && lx'.start == lx.start && lx'.input == lx.input && lx'.pos == lx.pos
    ensures Sends(lx, [], lx')
  {
    hide Good, Run, Sends, Next, Peeked, Ignore, Keeps, RoleOf, Rank;
    UnreadNext(lx, c, rest);
    UnreadPeeked(lx);
    lx' := OneStep(lx);
  }

  lemma RawRune(lx: Lexer, k: Stack, c: char, rest: string) returns (lx': Lexer)
    requires At(lx, RawString, k, [c] + rest) && RawRuneOk(c)
    ensures At(lx', RawString, k, rest) && lx'.start == lx.start && lx'.input == lx.input && lx'.pos == lx.pos + 1
    ensures Sends(lx, [], lx')
  {
    hide Good, Run, Sends, Next, Peeked, Ignore, Keeps, RoleOf, Rank, Emitted, Join, SendValue;
    UnreadNext(lx, c, rest);
    lx' := OneStep(lx);
  }

  lemma {:induction false} RawRunes(lx: Lexer, k: Stack, s: string, rest: string) returns (lx': Lexer)
    requires At(lx, RawString, k, s + rest) && forall i :: 0 <= i < |s| ==> RawRuneOk(s[i])
    ensures At(lx', RawString, k, rest) && lx'.start == lx.start && lx'.input == lx.input && lx'.pos == lx.pos + |s|
    ensures Sends(lx, [], lx')
    decreases |s|
  {
    hide Good, Run, Bared, RawRuneOk;
    if s == "" {
      lx' := lx;
      assert s + rest == rest;
      assert [] + Bared(Run(lx)) == Bared(Run(lx));
    } else {
      assert s + rest == [s[0]] + (s[1..] + rest);
      var mid := RawRune(lx, k, s[0], s[1..] + rest);
      lx' := RawRunes(mid, k, s[1..], rest);
      SendsThen(lx, [], mid, [], lx');
    }
  }

  /** What an unquoted text is sent as: a boolean, a variable or a string. */
  function RawItem(text: string): Item
    requires text != ""
  {
    if IsBool(text) then Bare(BoolItem, text)
    else if text[0] == '$' then Bare(VariableItem, text[1..]) else Bare(StringItem, text)
  }

  lemma RawIs(lx: Lexer)
    requires Good(lx) && lx.state.RawString? && EndsRawString(Rune(lx))
    ensures Step(lx) == EndRawString(lx)
  {
    hide Good, Keeps, RoleOf, Rank, Next, Ignore, Emitted, SendValue, EndRawString;
  }

  lemma RawEnds(lx: Lexer, text: string)
    requires Positioned(lx) && Good(lx) && lx.state.RawString? && EndsRawString(Rune(lx)) && lx.parts == [] && RoleOf(lx.state).ScalarRole?
    requires lx.input[lx.start..lx.pos] == text && text != ""
    ensures Sent(Step(lx)) == [RawItem(text)]
    ensures Step(lx).lx == SendValue(lx, Ignore(Peeked(lx)), Emitted(Peeked(lx), StringItem)).lx
  {
    hide Good, Keeps, RoleOf, Rank, Next, Ignore, IsBool, Step, EndsRawString;
    RawIs(lx);
    assert text[0] == lx.input[lx.start];
    assert Join([]) + text == text;
    if text[0] == '$' { assert Join([]) + lx.input[lx.start + 1..lx.pos] == text[1..]; }
  }

  lemma EndRaw(lx: Lexer, ret: State, k: Stack, text: string, rest: string) returns (lx': Lexer)
    requires At(lx, RawString, On(ret, k), rest) && lx.input[lx.start..lx.pos] == text && text != "" && EndsBy(rest, true)
    ensures At(lx', ret, k, rest) && Sends(lx, [RawItem(text)], lx')
  {
    hide Good, Run, Sends, Next, Peeked, Ignore, IsBool, Keeps, RoleOf, Rank, RawItem;
    RuneAhead(lx, rest);
    UnreadPeeked(lx);
    ScalarState(lx.state);
    RawEnds(lx, text);
    hide Step;
    lx' := OneStep(lx);
  }

  /** Unquoted text: strings, boolean words and variables. */
  lemma ReadRaw(lx: Lexer, ret: State, k: Stack, text: string, rest: string) returns (lx': Lexer)
    requires At(lx, Value, On(ret, k), text + rest) && lx.start == lx.pos && EndsBy(rest, true)
    requires text != "" && (Letter(text[0]) || text[0] == '$') && forall i :: 0 <= i < |text| ==> RawRuneOk(text[i])
    ensures At(lx', ret, k, rest) && Sends(lx, [RawItem(text)], lx')
  {
    hide At, Sends, RawRuneOk, RawItem;
    assert text + rest == [text[0]] + (text[1..] + rest);
    var a := EnterRaw(lx, On(ret, k), text[0], text[1..] + rest);
    var m := RawRunes(a, On(ret, k), text, rest);
    TextRead(lx, Value, On(ret, k), text, rest);
    lx' := EndRaw(m, ret, k, text, rest);
    SendsThen(lx, [], a, [], m);
    SendsThen(lx, [], m, [RawItem(text)], lx');
    assert [] + [RawItem(text)] == [RawItem(text)];
  }

  // ---------- Values ----------

  lemma ReadDouble(lx: Lexer, ret: State, k: Stack, s: string, rest: string) returns (lx': Lexer)
    requires At(lx, Value, On(ret, k), "\"" + (Escape(s) + "\"") + rest)
    ensures At(lx', ret, k, rest) && Sends(lx, [Bare(StringItem, s)], lx')
  {
    hide Good, Run, Bared, Content, Escape;
    assert "\"" + (Escape(s) + "\"") + rest == "\"" + (Escape(s) + ("\"" + rest));
    var a := OpenString(lx, On(ret, k), Escape(s) + ("\"" + rest));
    var b := StringRunes(a, On(ret, k), s, "\"" + rest);
    assert "" + s == s;
    lx' := CloseString(b, ret, k, rest);
    SendsThen(lx, [], a, [], b);
    SendsThen(lx, [], b, [Bare(StringItem, s)], lx');
    assert [] + [Bare(StringItem, s)] == [Bare(StringItem, s)];
  }

  lemma OpenSingle(lx: Lexer, k: Stack, rest: string) returns (lx': Lexer)
    requires At(lx, Value, k, "'" + rest)
    ensures At(lx', QuotedString, k, rest) && lx'.start == lx'.pos && Sends(lx, [], lx')
  {
    hide Good, Run, Sends, Next, Peeked, Ignore, Keeps, RoleOf, Rank;
    UnreadNext(lx, '\'', rest);
    lx' := OneStep(lx);
  }

  lemma SingleRune(lx: Lexer, k: Stack, c: char, rest: string) returns (lx': Lexer)
    requires At(lx, QuotedString, k, [c] + rest) && c != '\'' && c != EOF
    ensures At(lx', QuotedString, k, rest) && lx'.start == lx.start && lx'.input == lx.input && lx'.pos == lx.pos + 1
    ensures Sends(lx, [], lx')
  {
    hide Good, Run, Sends, Next, Peeked, Ignore, Keeps, RoleOf, Rank, Emitted;
    UnreadNext(lx, c, rest);
    lx' := OneStep(lx);
  }

  lemma {:induction false} SingleRunes(lx: Lexer, k: Stack, s: string, rest: string) returns (lx': Lexer)
    requires At(lx, QuotedString, k, s + rest) && QuotedOk(s, Single)
    ensures At(lx', QuotedString, k, rest) && lx'.start == lx.start && lx'.input == lx.input && lx'.pos == lx.pos + |s|
    ensures Sends(lx, [], lx')
    decreases |s|
  {
    hide Good, Run, Bared;
    if s == "" {
      lx' := lx;
      assert s + rest == rest;
      assert [] + Bared(Run(lx)) == Bared(Run(lx));
    } else {
      assert s + rest == [s[0]] + (s[1..] + rest);
      var mid := SingleRune(lx, k, s[0], s[1..] + rest);
      lx' := SingleRunes(mid, k, s[1..], rest);
      SendsThen(lx, [], mid, [], lx');
    }
  }

  lemma CloseSingle(lx: Lexer, ret: State, k: Stack, s: string, rest: string) returns (lx': Lexer)
    requires At(lx, QuotedString, On(ret, k), "'" + rest) && lx.input[lx.start..lx.pos] == s
    ensures At(lx', ret, k, rest) && Sends(lx, [Bare(StringItem, s)], lx')
  {
    hide Good, Run, Sends, Next, Peeked, Ignore, Keeps, RoleOf, Rank;
    UnreadNext(lx, '\'', rest);
    UnreadPeeked(lx);
    assert Join([]) + s == s;
    lx' := OneStep(lx);
  }

  lemma ReadSingle(lx: Lexer, ret: State, k: Stack, s: string, rest: string) returns (lx': Lexer)
    requires At(lx, Value, On(ret, k), "'" + (s + "'") + rest) && QuotedOk(s, Single)
    ensures At(lx', ret, k, rest) && Sends(lx, [Bare(StringItem, s)], lx')
  {
    hide At, Sends;
    var close := "'" + rest;
    assert "'" + (s + "'") + rest == "'" + (s + close);
    var a := OpenSingle(lx, On(ret, k), s + close);
    TextRead(a, QuotedString, On(ret, k), s, close);
    var b := SingleRunes(a, On(ret, k), s, close);
    lx' := CloseSingle(b, ret, k, s, rest);
    SendsThen(lx, [], a, [], b);
    SendsThen(lx, [], b, [Bare(StringItem, s)], lx');
    assert [] + [Bare(StringItem, s)] == [Bare(StringItem, s)];
  }

  lemma ReadLeaf(lx: Lexer, ret: State, k: Stack, s: string, q: Quote, rest: string) returns (lx': Lexer)
    requires At(lx, Value, On(ret, k), Render(Leaf(s, q)) + rest) && TreeOk(Leaf(s, q)) && lx.start == lx.pos && EndsBy(rest, true)
    ensures At(lx', ret, k, rest) && Sends(lx, [Bare(StringItem, s)], lx')
  {
    hide At, Sends, Escape, RawRuneOk, IsBool;
    match q
    case Double => lx' := ReadDouble(lx, ret, k, s, rest);
    case Single => lx' := ReadSingle(lx, ret, k, s, rest);
    case Unquoted => lx' := ReadRaw(lx, ret, k, s, rest);
  }

  lemma ReadWord(lx: Lexer, ret: State, k: Stack, w: string, rest: string) returns (lx': Lexer)
    requires At(lx, Value, On(ret, k), w + rest) && BoolWord(w) && lx.start == lx.pos && EndsBy(rest, true)
    ensures At(lx', ret, k, rest) && Sends(lx, [Bare(BoolItem, w)], lx')
  {
    BoolStarts(w);
    hide At, Sends, RawRuneOk, IsBool, BoolWord;
    lx' := ReadRaw(lx, ret, k, w, rest);
  }

  /** Numbers that a bracket does not end: those without a sign, and sizes. */
  predicate JoinsBracket(t: Tree) { (t.Num? && t.n >= 0) || t.Sized? }

  /** What may follow a value: what ends it, or the end of an array except after such
      a number. */
  predicate EndsValue(t: Tree, rest: string) { EndsBy(rest, !JoinsBracket(t)) }

  lemma CommaEnds(t: Tree, tail: string)
    ensures EndsValue(t, "," + tail)
  {
  }

  /** The lexer reads the text of a value as the items of that value. */
  lemma {:induction false} ReadValue(lx: Lexer, ret: State, k: Stack, t: Tree, rest: string) returns (lx': Lexer)
    requires At(lx, Value, On(ret, k), Render(t) + rest) && TreeOk(t) && lx.start == lx.pos && EndsValue(t, rest)
    ensures At(lx', ret, k, rest) && Sends(lx, Flatten(t), lx')
    decreases t, 0
  {
    hide Good, Sends, At, Numeral, Escape, SizeLetter, SizeEnding, BoolWord, RawOk;
    match t
    case Leaf(s, q) => lx' := ReadLeaf(lx, ret, k, s, q, rest);
    case Num(n) => lx' := ReadNumber(lx, ret, k, n, rest);
    case Sized(n, letter, ending) => lx' := ReadSized(lx, ret, k, n, letter, ending, rest);
    case Word(w) => lx' := ReadWord(lx, ret, k, w, rest);
    case Arr(es) => lx' := ReadArray(lx, ret, k, es, rest);
    case Obj(fs) => lx' := ReadObject(lx, ret, k, fs, rest);
  }

  lemma ArrText(es: seq<Tree>, rest: string)
    ensures Render(Arr(es)) + rest == "[" + (RenderAll(es) + ("]" + rest))
  {
    hide RenderAll;
  }

  lemma ObjText(fs: seq<Field>, rest: string)
    ensures Render(Obj(fs)) + rest == "{" + (RenderFields(fs) + ("}" + rest))
  {
    hide RenderFields;
  }

  lemma ReadArray(lx: Lexer, ret: State, k: Stack, es: seq<Tree>, rest: string) returns (lx': Lexer)
    requires At(lx, Value, On(ret, k), Render(Arr(es)) + rest) && TreeOk(Arr(es)) && lx.start == lx.pos
    ensures At(lx', ret, k, rest) && Sends(lx, Flatten(Arr(es)), lx')
    decreases es, 1
  {
    hide Sends, At, Render, RenderAll, TreeOk, FlattenAll;
    ArrText(es, rest);
    var a := OpenArray(lx, On(ret, k), RenderAll(es) + ("]" + rest));
    var b := ReadElements(a, On(ret, k), es, "]" + rest);
    lx' := CloseArray(b, ret, k, rest);
    SendsThen(lx, [Bare(ArrayStartItem, "")], a, FlattenAll(es), b);
    SendsThen(lx, [Bare(ArrayStartItem, "")] + FlattenAll(es), b, [Bare(ArrayEndItem, "")], lx');
  }

  lemma ReadObject(lx: Lexer, ret: State, k: Stack, fs: seq<Field>, rest: string) returns (lx': Lexer)
    requires At(lx, Value, On(ret, k), Render(Obj(fs)) + rest) && TreeOk(Obj(fs)) && lx.start == lx.pos
    ensures At(lx', ret, k, rest) && Sends(lx, Flatten(Obj(fs)), lx')
    decreases fs, 1
  {
    hide Sends, At, Render, RenderFields, FieldsOk, FlattenFields;
    ObjText(fs, rest);
    var a := OpenObject(lx, On(ret, k), RenderFields(fs) + ("}" + rest));
    var b := ReadFields(a, On(ret, k), fs, "}" + rest);
    lx' := CloseObject(b, ret, k, rest);
    SendsThen(lx, [Bare(MapStartItem, "")], a, FlattenFields(fs), b);
    SendsThen(lx, [Bare(MapStartItem, "")] + FlattenFields(fs), b, [Bare(MapEndItem, "")], lx');
  }

  lemma {:induction false} ReadElements(lx: Lexer, k: Stack, es: seq<Tree>, rest: string) returns (lx': Lexer)
    requires At(lx, ArrayValue, k, RenderAll(es) + rest) && TreeOk(Arr(es)) && lx.start == lx.pos
    ensures At(lx', ArrayValue, k, rest) && lx'.start == lx'.pos && Sends(lx, FlattenAll(es), lx')
    decreases es, 0
  {
    hide At, Sends;
    if es == [] {
      lx' := lx;
      assert RenderAll(es) + rest == rest;
      SendsNothing(lx, ArrayValue, k, rest);
    } else {
      var tail := RenderAll(es[1..]) + rest;
      assert RenderAll(es) + rest == Render(es[0]) + ("," + tail);
      var a := ReadElement(lx, k, es[0], tail);
      lx' := ReadElements(a, k, es[1..], rest);
      SendsThen(lx, Flatten(es[0]), a, FlattenAll(es[1..]), lx');
    }
  }

  lemma ReadElement(lx: Lexer, k: Stack, t: Tree, tail: string) returns (lx': Lexer)
    requires At(lx, ArrayValue, k, Render(t) + ("," + tail)) && TreeOk(t) && lx.start == lx.pos
    ensures At(lx', ArrayValue, k, tail) && lx'.start == lx'.pos && Sends(lx, Flatten(t), lx')
    decreases t, 1
  {
    hide At, Sends, Render, Flatten, TreeOk, StartsValue, EndsValue;
    Starts(t);
    CommaEnds(t, tail);
    var text := Render(t);
    assert text + ("," + tail) == [text[0]] + (text[1..] + ("," + tail));
    var a := EnterElement(lx, k, text[0], text[1..] + ("," + tail));
    var b := ReadValue(a, ArrayValueEnd, k, t, "," + tail);
    lx' := LeaveElement(b, k, tail);
    SendsThen(lx, [], a, Flatten(t), b);
    SendsThen(lx, [] + Flatten(t), b, [], lx');
    assert [] + Flatten(t) + [] == Flatten(t);
  }

  lemma {:induction false} ReadFields(lx: Lexer, k: Stack, fs: seq<Field>, rest: string) returns (lx': Lexer)
    requires At(lx, MapKeyStart, k, RenderFields(fs) + rest) && FieldsOk(fs)
    ensures At(lx', MapKeyStart, k, rest) && Sends(lx, FlattenFields(fs), lx')
    decreases fs, 0
  {
    hide At, Sends, FieldText, FieldItems, FieldOk, TreeOk;
    if fs == [] {
      lx' := lx;
      assert RenderFields(fs) + rest == rest;
      SendsNothing(lx, MapKeyStart, k, rest);
    } else {
      var tail := RenderFields(fs[1..]) + rest;
      FirstField(fs, rest);
      var a := ReadField(lx, k, fs[0], tail);
      lx' := ReadFields(a, k, fs[1..], rest);
      SendsThen(lx, FieldItems(fs[0]), a, FlattenFields(fs[1..]), lx');
    }
  }

  lemma FirstField(fs: seq<Field>, rest: string)
    requires fs != []
    ensures RenderFields(fs) + rest == FieldText(fs[0]) + (RenderFields(fs[1..]) + rest)
  {
    hide FieldText;
  }

  lemma AtIsGood(lx: Lexer, s: State, k: Stack, text: string)
    requires At(lx, s, k, text)
    ensures Good(lx)
  {
  }

  lemma SendsNothing(lx: Lexer, s: State, k: Stack, text: string)
    requires At(lx, s, k, text)
    ensures Sends(lx, [], lx)
  {
    hide Good, Run, Bared;
    assert [] + Bared(Run(lx)) == Bared(Run(lx));
  }

  /** A key in any style and its separator. */
  lemma ReadKey(lx: Lexer, top: bool, k: Stack, key: string, q: Quote, sep: char, text: string) returns (lx': Lexer)
    requires At(lx, KeyStartOf(top), k, KeyText(key, q) + ([sep] + text)) && KeyOk(key, q, sep) && SepOk(sep)
    requires text != "" && StartsValue(text[0])
    ensures At(lx', ValueState(top), k, text) && lx'.start == lx'.pos && Sends(lx, [Bare(KeyItem, key)], lx')
  {
    hide At, Sends, SepOk, StartsValue;
    var a;
    if q.Unquoted? {
      a := ReadPlainKey(lx, top, k, key, sep, text);
    } else {
      a := ReadQuotedKey(lx, top, q, k, key, [sep] + text);
    }
    assert text == [text[0]] + text[1..];
    lx' := Separate(a, top, k, sep, text[0], text[1..]);
    SendsThen(lx, [Bare(KeyItem, key)], a, [], lx');
    assert [Bare(KeyItem, key)] + [] == [Bare(KeyItem, key)];
  }

  lemma ReadField(lx: Lexer, k: Stack, f: Field, tail: string) returns (lx': Lexer)
    requires At(lx, MapKeyStart, k, FieldText(f) + tail) && FieldOk(f) && TreeOk(f.value)
    ensures At(lx', MapKeyStart, k, tail) && Sends(lx, FieldItems(f), lx')
    decreases f, 1
  {
    Starts(f.value);
    hide At, Sends, Render, TreeOk, NoteText, NoteItems, KeyText, KeyOk, SepOk, NoteOk, StartsValue, Flatten;
    var text := Render(f.value) + ([f.end] + tail);
    var body := KeyText(f.key, f.quote) + ([f.sep] + text);
    FieldSplits(f, tail);
    var n := ReadNote(lx, MapKeyStart, k, f.note, body);
    var a := ReadKey(n, false, k, f.key, f.quote, f.sep, text);
    assert text == [text[0]] + text[1..];
    var v := EnterFieldValue(a, k, text[0], text[1..]);
    var b := ReadValue(v, MapValueEnd, k, f.value, [f.end] + tail);
    lx' := LeaveField(b, k, f.end, tail);
    FieldSends(lx, f, n, a, v, b, lx');
  }

  /** What is sent on the way through a field. */
  lemma FieldSends(lx: Lexer, f: Field, n: Lexer, a: Lexer, v: Lexer, b: Lexer, lx': Lexer)
    requires Sends(lx, NoteItems(f.note), n) && Sends(n, [Bare(KeyItem, f.key)], a) && Sends(a, [], v)
    requires Sends(v, Flatten(f.value), b) && Sends(b, [], lx')
    ensures Sends(lx, FieldItems(f), lx')
  {
    hide Sends, Flatten, NoteItems;
    var key := [Bare(KeyItem, f.key)];
    SendsThen(n, key, a, [], v);
    SendsThen(n, key + [], v, Flatten(f.value), b);
    SendsThen(n, key + [] + Flatten(f.value), b, [], lx');
    assert key + [] + Flatten(f.value) + [] == key + Flatten(f.value);
    SendsThen(lx, NoteItems(f.note), n, key + Flatten(f.value), lx');
  }

  lemma FieldSplits(f: Field, tail: string)
    ensures FieldText(f) + tail
            == NoteText(f.note) + (KeyText(f.key, f.quote) + ([f.sep] + (Render(f.value) + ([f.end] + tail))))
  {
    hide NoteText, KeyText, Render;
  }

  // ---------- Documents ----------

  lemma EnterTop(lx: Lexer, c: char, rest: string) returns (lx': Lexer)
    requires At(lx, Top, Empty, [c] + rest) && (c == '"' || c == '\'' || Letter(c))
    ensures At(lx', KeyStart, On(TopValueEnd, Empty), [c] + rest) && Sends(lx, [], lx')
  {
    hide Good, Run, Sends, Next, Peeked, Ignore, Keeps, RoleOf, Rank;
    UnreadNext(lx, c, rest);
    UnreadPeeked(lx);
    lx' := OneStep(lx);
  }

  /** A top-level value ends with one of the ending runes or the text. */
  lemma LeaveTop(lx: Lexer, c: char, rest: string) returns (lx': Lexer)
    requires At(lx, TopValueEnd, Empty, [c] + rest) && EndOk(c)
    ensures At(lx', Top, Empty, rest) && lx'.start == lx'.pos && Sends(lx, [], lx')
  {
    hide Good, Run, Sends, Next, Peeked;
    UnreadNext(lx, c, rest);
    lx' := OneStep(lx);
  }

  lemma LeaveAtEnd(lx: Lexer) returns (lx': Lexer)
    requires At(lx, TopValueEnd, Empty, "")
    ensures At(lx', Top, Empty, "") && lx'.start == lx'.pos && Sends(lx, [], lx')
  {
    hide Good, Run, Sends, Next, Peeked;
    RuneAhead(lx, "");
    lx' := OneStep(lx);
  }

  lemma FinishTop(lx: Lexer)
    requires At(lx, Top, Empty, "") && lx.start == lx.pos
    ensures Bared(Run(lx)) == [Bare(EofItem, "")]
  {
    hide Good, Next, Peeked, Ignore, Keeps;
    assert AtEnd(lx);
    var done := OneStep(lx);
    assert done.state.Done? && Run(done) == [] && Bared([]) == [];
  }

  lemma ReadTopKey(lx: Lexer, key: string, q: Quote, sep: char, text: string) returns (lx': Lexer)
    requires At(lx, Top, Empty, KeyText(key, q) + ([sep] + text)) && KeyOk(key, q, sep) && SepOk(sep)
    requires text != "" && StartsValue(text[0])
    ensures At(lx', Value, On(TopValueEnd, Empty), text) && lx'.start == lx'.pos && Sends(lx, [Bare(KeyItem, key)], lx')
  {
    var all := KeyText(key, q) + ([sep] + text);
    assert all[0] == '"' || all[0] == '\'' || Letter(all[0]);
    hide At, Sends, KeyOk, SepOk, StartsValue;
    assert all == [all[0]] + all[1..];
    var a := EnterTop(lx, all[0], all[1..]);
    lx' := ReadKey(a, true, On(TopValueEnd, Empty), key, q, sep, text);
    SendsThen(lx, [], a, [Bare(KeyItem, key)], lx');
    assert [] + [Bare(KeyItem, key)] == [Bare(KeyItem, key)];
  }

  /** A field of the document up to its value, which `rest` ends. */
  lemma ReadTopValue(lx: Lexer, f: Field, rest: string) returns (lx': Lexer)
    requires At(lx, Top, Empty, NoteText(f.note) + (KeyText(f.key, f.quote) + ([f.sep] + (Render(f.value) + rest))))
    requires FieldOk(f) && TreeOk(f.value) && EndsValue(f.value, rest)
    ensures At(lx', TopValueEnd, Empty, rest) && Sends(lx, FieldItems(f), lx')
  {
    Starts(f.value);
    hide At, Sends, Render, TreeOk, NoteText, NoteItems, KeyText, KeyOk, SepOk, NoteOk, StartsValue, Flatten, EndsValue;
    var text := Render(f.value) + rest;
    assert text[0] == Render(f.value)[0];
    var n := ReadNote(lx, Top, Empty, f.note, KeyText(f.key, f.quote) + ([f.sep] + text));
    var a := ReadTopKey(n, f.key, f.quote, f.sep, text);
    lx' := ReadValue(a, TopValueEnd, Empty, f.value, rest);
    var key := [Bare(KeyItem, f.key)];
    SendsThen(n, key, a, Flatten(f.value), lx');
    SendsThen(lx, NoteItems(f.note), n, key + Flatten(f.value), lx');
  }

  lemma ReadTopField(lx: Lexer, f: Field, tail: string) returns (lx': Lexer)
    requires At(lx, Top, Empty, FieldText(f) + tail) && FieldOk(f) && TreeOk(f.value)
    ensures At(lx', Top, Empty, tail) && lx'.start == lx'.pos && Sends(lx, FieldItems(f), lx')
  {
    hide At, Sends, TreeOk, FieldItems;
    FieldSplits(f, tail);
    var b := ReadTopValue(lx, f, [f.end] + tail);
    lx' := LeaveTop(b, f.end, tail);
    SendsThen(lx, FieldItems(f), b, [], lx');
    assert FieldItems(f) + [] == FieldItems(f);
  }

  /** The lexer reads the text of a document as the items of its fields, whatever
      follows. */
  lemma {:induction false} ReadDocument(lx: Lexer, fs: seq<Field>, rest: string) returns (lx': Lexer)
    requires At(lx, Top, Empty, RenderFields(fs) + rest) && lx.start == lx.pos && FieldsOk(fs)
    ensures At(lx', Top, Empty, rest) && lx'.start == lx'.pos && Sends(lx, FlattenFields(fs), lx')
    decreases |fs|
  {
    hide At, Sends, FieldText, FieldItems, FieldOk, TreeOk;
    if fs == [] {
      lx' := lx;
      assert RenderFields(fs) + rest == rest;
      SendsNothing(lx, Top, Empty, rest);
    } else {
      var tail := RenderFields(fs[1..]) + rest;
      FirstField(fs, rest);
      var a := ReadTopField(lx, fs[0], tail);
      lx' := ReadDocument(a, fs[1..], rest);
      SendsThen(lx, FieldItems(fs[0]), a, FlattenFields(fs[1..]), lx');
    }
  }

  /** Items that differ in their positions only are processed alike. */
  lemma {:induction false} PositionsDoNotMatter(w: World, refs: set<string>, st: Stacks, dangling: bool, items: seq<Item>)
    ensures ProcessItems(w, refs, false, st, dangling, Bared(items)) == ProcessItems(w, refs, false, st, dangling, items)
    decreases |items|
  {
    if items != [] && !items[0].typ.EofItem? {
      assert Bared(items)[1..] == Bared(items[1..]);
      BareItem(w, refs, st, items[0]);
      var r := ProcessItem(w, refs, false, st, items[0]);
      if r.Ok? {
        PositionsDoNotMatter(w, refs, r.value, items[0].typ.KeyItem? && items[0].val != "}", items[1..]);
      }
    }
  }

  lemma BareItem(w: World, refs: set<string>, st: Stacks, it: Item)
    ensures ProcessItem(w, refs, false, st, Bare(it.typ, it.val)) == ProcessItem(w, refs, false, st, it)
  {
  }

  lemma {:induction false} TreeFits(t: Tree)
    requires TreeOk(t)
    ensures Fits64(t)
    decreases t
  {
    match t
    case Leaf(_, _) =>
    case Num(_) =>
    case Sized(_, _, _) =>
    case Word(_) =>
    case Arr(es) => forall i | 0 <= i < |es| ensures Fits64(es[i]) { TreeFits(es[i]); }
    case Obj(fs) => forall i | 0 <= i < |fs| ensures Fits64(fs[i].value) { TreeFits(fs[i].value); }
  }

  lemma FieldsFit(fs: seq<Field>)
    requires FieldsOk(fs)
    ensures Fits64(Obj(fs))
  {
    TreeFits(Obj(fs));
  }

  /** A last field that only the end of the text ends. */
  function OpenField(f: Field): string { NoteText(f.note) + (KeyText(f.key, f.quote) + ([f.sep] + Render(f.value))) }

  lemma ReadOpenField(lx: Lexer, f: Field)
    requires At(lx, Top, Empty, OpenField(f)) && FieldOk(f) && TreeOk(f.value)
    ensures Good(lx) && Bared(Run(lx)) == FieldItems(f) + [Bare(EofItem, "")]
  {
    hide At, TreeOk, FieldItems, KeyText, NoteText, Render;
    assert Render(f.value) + "" == Render(f.value);
    var a := ReadTopValue(lx, f, "");
    var b := LeaveAtEnd(a);
    FinishTop(b);
    hide Run, Bared, Good;
  }

  lemma LexOpen(fs: seq<Field>, f: Field)
    requires FieldsOk(fs) && FieldOk(f) && TreeOk(f.value)
    ensures Bared(Lex(RenderFields(fs) + OpenField(f))) == FlattenFields(fs) + (FieldItems(f) + [Bare(EofItem, "")])
  {
    hide RenderFields, FieldsOk, FieldOk, TreeOk, OpenField, FlattenFields, FieldItems;
    var text := RenderFields(fs) + OpenField(f);
    var lx := Begin(text);
    assert Unread(lx) == text;
    var mid := ReadDocument(lx, fs, OpenField(f));
    ReadOpenField(mid, f);
  }

  /** The last field needs no end: the text may stop right after its value. */
  lemma OpenDocumentRoundTrip(w: World, refs: set<string>, fs: seq<Field>, f: Field)
    requires FieldsOk(fs) && FieldOk(f) && TreeOk(f.value)
    ensures ParseText(w, refs, false, RenderFields(fs) + OpenField(f)) == Ok(DenoteFields(map[], fs)[f.key := Denote(f.value)])
  {
    hide RenderFields, OpenField, DenoteFields, FieldsOk, FieldOk, TreeOk, FlattenFields, FieldItems, ProcessItems, Lex, Bared, Denote;
    var text, eof := RenderFields(fs) + OpenField(f), [Bare(EofItem, "")];
    LexOpen(fs, f);
    PositionsDoNotMatter(w, refs, Root, false, Lex(text));
    FieldsFit(fs);
    LastFits(f);
    var none, m := Stacks([], [], []), DenoteFields(map[], fs);
    assert PushContext(none, MapCtx(map[])) == Root;
    RebuildsFields(w, refs, none, map[], fs, FieldItems(f) + eof);
    OneField(w, refs, m, f);
    RebuildsFields(w, refs, none, m, [f], eof);
  }

  lemma LastFits(f: Field)
    requires TreeOk(f.value)
    ensures Fits64(Obj([f]))
  {
    TreeFits(f.value);
  }

  lemma OneField(w: World, refs: set<string>, m: map<string, Value>, f: Field)
    ensures FlattenFields([f]) + [Bare(EofItem, "")] == FieldItems(f) + [Bare(EofItem, "")]
    ensures DenoteFields(m, [f]) == m[f.key := Denote(f.value)]
    ensures ProcessItems(w, refs, false, PushContext(Stacks([], [], []), MapCtx(m[f.key := Denote(f.value)])), false, [Bare(EofItem, "")])
            == Ok(Stacks([MapCtx(m[f.key := Denote(f.value)])], [], []))
  {
    hide FieldItems, Denote;
    assert [f][1..] == [];
    var c := MapCtx(m[f.key := Denote(f.value)]);
    assert [] + [c] == [c];
  }

  /** Parsing the text of a document gives back the document, in every
      environment: fields in order, a later field of the same key winning. */
  lemma DocumentRoundTrip(w: World, fs: seq<Field>)
    requires FieldsOk(fs)
    ensures Parse(w, false, RenderFields(fs)) == Ok(DenoteFields(map[], fs))
  {
    hide RenderFields, DenoteFields, FieldsOk;
    var text := RenderFields(fs);
    var lx := Begin(text);
    assert Unread(lx) == text == text + "";
    var end := ReadDocument(lx, fs, "");
    FinishTop(end);
    PositionsDoNotMatter(w, {}, Root, false, Lex(text));
    var none := Stacks([], [], []);
    FieldsFit(fs);
    RebuildsFields(w, {}, none, map[], fs, [Bare(EofItem, "")]);
    assert PushContext(none, MapCtx(map[])) == Root;
  }
}
