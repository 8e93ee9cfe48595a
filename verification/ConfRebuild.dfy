/** Configuration documents as trees: parsing the items of a tree, and the text
    of a document, gives back exactly the value they stand for. */
module ConfRebuild {
  import opened Ascii
  import opened ConfLexer
  import opened ConfParser
  import opened Int64

  /** How a string or a key is written. */
  datatype Quote = Double | Single | Unquoted

  /** A comment line. */
  datatype Note = NoNote | Hash(text: string) | Slashes(text: string)

  /** A nested value and how it is written: strings, 64-bit integers, sizes such as
      `8MB` and boolean words in lists and tables. A field has a comment line before
      it, a key, a separator and what ends it. */
  datatype Tree =
    | Leaf(text: string, quote: Quote)
    | Num(n: int)
    | Sized(n: int, letter: char, ending: string)
    | Word(word: string)
    | Arr(elems: seq<Tree>)
    | Obj(fields: seq<Field>)
  datatype Field = Field(note: Note, key: string, quote: Quote, sep: char, value: Tree, end: char)

  /** What a size counts in: a letter alone counts in thousands, with `b`, `i` or `ib`
      after it in steps of 1024. */
  function Factor(letter: char, ending: string): int {
    var decimal := ending == "";
    match letter
    case 'k' => if decimal then 1_000 else 1_024
    case 'm' => if decimal then 1_000_000 else 1_048_576
    case 'g' => if decimal then 1_000_000_000 else 1_073_741_824
    case 't' => if decimal then 1_000_000_000_000 else 1_099_511_627_776
    case 'p' => if decimal then 1_000_000_000_000_000 else 1_125_899_906_842_624
    case _ => if decimal then 1_000_000_000_000_000_000 else 1_152_921_504_606_846_976
  }

  predicate SizeLetter(c: char) { c in "kmgtpeKMGTPE" }
  predicate SizeEnding(s: string) { Lower(s) in {"", "b", "i", "ib"} }
  predicate BoolWord(w: string) { Lower(w) in {"true", "yes", "on", "false", "no", "off"} }

  /** What a tree stands for. A later field of the same key wins. */
  function Denote(t: Tree): Value {
    match t
    case Leaf(s, _) => Text(s)
    case Num(n) => Integer(n)
    case Sized(n, letter, ending) => Integer(Wrap64(n * Factor(Lower([letter])[0], ending)))
    case Word(w) => Flag(Lower(w) in {"true", "yes", "on"})
    case Arr(es) => List(DenoteAll(es))
    case Obj(fs) => Table(DenoteFields(map[], fs))
  }

  function DenoteAll(es: seq<Tree>): seq<Value> {
    if es == [] then [] else [Denote(es[0])] + DenoteAll(es[1..])
  }

  function DenoteFields(m: map<string, Value>, fs: seq<Field>): map<string, Value>
    decreases fs
  {
    if fs == [] then m else DenoteFields(m[fs[0].key := Denote(fs[0].value)], fs[1..])
  }

  function Numeral(n: int): string {
    if n < 0 then "-" + NatNumeral(-n) else NatNumeral(n)
  }

  /** All integers of a tree fit 64 bits, and sizes and booleans are well spelled. */
  predicate Fits64(t: Tree) {
    match t
    case Leaf(_, _) => true
    case Num(n) => -MAX_INT64 - 1 <= n <= MAX_INT64
    case Sized(n, letter, ending) => -MAX_INT64 - 1 <= n <= MAX_INT64 && SizeLetter(letter) && SizeEnding(ending)
    case Word(w) => BoolWord(w)
    case Arr(es) => forall i :: 0 <= i < |es| ==> Fits64(es[i])
    case Obj(fs) => forall i :: 0 <= i < |fs| ==> Fits64(fs[i].value)
  }

  /** An item without its position in the text. */
  function Bare(typ: ItemType, val: string): Item { Item(typ, val, 0, 0) }

  /** The items of a tree, in order. */
  function Flatten(t: Tree): (items: seq<Item>)
    ensures items != [] && !items[|items| - 1].typ.KeyItem?
  {
    match t
    case Leaf(s, _) => [Bare(StringItem, s)]
    case Num(n) => [Bare(IntegerItem, Numeral(n))]
    case Sized(n, letter, ending) => [Bare(IntegerItem, Numeral(n) + ([letter] + ending))]
    case Word(w) => [Bare(BoolItem, w)]
    case Arr(es) => [Bare(ArrayStartItem, "")] + FlattenAll(es) + [Bare(ArrayEndItem, "")]
    case Obj(fs) => [Bare(MapStartItem, "")] + FlattenFields(fs) + [Bare(MapEndItem, "")]
  }

  function FlattenAll(es: seq<Tree>): seq<Item> {
    if es == [] then [] else Flatten(es[0]) + FlattenAll(es[1..])
  }

  function FlattenFields(fs: seq<Field>): seq<Item> {
    if fs == [] then [] else FieldItems(fs[0]) + FlattenFields(fs[1..])
  }

  function NoteItems(note: Note): seq<Item> {
    if note.NoNote? then [] else [Bare(CommentStartItem, "")] + [Bare(TextItem, note.text)]
  }

  function FieldItems(f: Field): seq<Item> { NoteItems(f.note) + ([Bare(KeyItem, f.key)] + Flatten(f.value)) }

  /** Go on with `rest` after an operation. */
  function Then(w: World, refs: set<string>, r: Outcome<Stacks>, rest: seq<Item>): Outcome<Stacks> {
    match r
    case Ok(st) => ProcessItems(w, refs, false, st, false, rest)
    case Err => Err
    case Panic => Panic
  }

  lemma EndOfItems(w: World, refs: set<string>, st: Stacks)
    ensures ProcessItems(w, refs, false, st, false, [Bare(EofItem, "")]) == Ok(st)
  {
  }

  lemma ProcessFirst(w: World, refs: set<string>, st: Stacks, dangling: bool, it: Item, rest: seq<Item>)
    requires !it.typ.EofItem? && !it.typ.KeyItem?
    ensures ProcessItems(w, refs, false, st, dangling, [it] + rest)
            == Then(w, refs, ProcessItem(w, refs, false, st, it), rest)
  {
    assert ([it] + rest)[1..] == rest;
  }

  lemma ProcessKey(w: World, refs: set<string>, st: Stacks, dangling: bool, key: string, rest: seq<Item>)
    ensures ProcessItems(w, refs, false, st, dangling, [Bare(KeyItem, key)] + rest)
            == ProcessItems(w, refs, false, st.(keys := st.keys + [key]), key != "}", rest)
  {
    assert ([Bare(KeyItem, key)] + rest)[1..] == rest;
  }

  /** Processing the items of a tree is setting the value of the tree: whatever
      is below on the stacks stays as it is. */
  lemma {:induction false} Rebuilds(w: World, refs: set<string>, st: Stacks, dangling: bool, t: Tree, rest: seq<Item>)
    requires st.ctxs != [] && Fits64(t)
    ensures ProcessItems(w, refs, false, st, dangling, Flatten(t) + rest)
            == Then(w, refs, SetValue(false, st, Denote(t)), rest)
    decreases t
  {
    hide SetValue, ProcessItems;
    match t
    case Leaf(s, _) => ProcessFirst(w, refs, st, dangling, Bare(StringItem, s), rest);
    case Num(n) =>
      hide SetInteger;
      ProcessFirst(w, refs, st, dangling, Bare(IntegerItem, Numeral(n)), rest);
      NumeralSets(st, n);
    case Sized(n, letter, ending) =>
      hide SetInteger;
      ProcessFirst(w, refs, st, dangling, Bare(IntegerItem, Numeral(n) + ([letter] + ending)), rest);
      SizeSets(st, n, letter, ending);
    case Word(word) =>
      hide SetBool;
      ProcessFirst(w, refs, st, dangling, Bare(BoolItem, word), rest);
      BoolSets(st, word);
    case Arr(es) => RebuildsArray(w, refs, st, dangling, es, rest);
    case Obj(fs) => RebuildsObject(w, refs, st, dangling, fs, rest);
  }

  /** Each of the six words sets its truth, in any case. */
  lemma BoolSets(st: Stacks, word: string)
    requires BoolWord(word)
    ensures SetBool(false, st, Bare(BoolItem, word)) == SetValue(false, st, Flag(Lower(word) in {"true", "yes", "on"}))
  {
    hide SetValue, Lower;
  }

  lemma {:induction false} AllPrefix(s: string)
    requires forall i :: 0 <= i < |s| ==> IsDigit(s[i]) || s[i] == '-'
    ensures NumberPrefix(s) == |s|
    decreases |s|
  {
    if s != "" { AllPrefix(s[1..]); }
  }

  /** An integer item of a numeral sets its number. */
  lemma NumeralSets(st: Stacks, n: int)
    requires -MAX_INT64 - 1 <= n <= MAX_INT64
    ensures SetInteger(false, st, Bare(IntegerItem, Numeral(n))) == SetValue(false, st, Integer(n))
  {
    hide SetValue, NatNumeral, ParseInt64;
    var s := Numeral(n);
    AllPrefix(s);
    if n < 0 { ParsesNegative(-n); } else { ParsesNumeral(n); }
    assert s[..|s|] == s && s[|s|..] == "" && Trim("") == "" && Lower("") == "";
    assert Wrap64(n * 1) == n;
  }

  lemma {:induction false} PrefixThen(s: string, rest: string)
    requires (forall i :: 0 <= i < |s| ==> IsDigit(s[i]) || s[i] == '-') && (rest == "" || !(IsDigit(rest[0]) || rest[0] == '-'))
    ensures NumberPrefix(s + rest) == |s|
    decreases |s|
  {
    if s == "" {
      assert s + rest == rest;
    } else {
      assert (s + rest)[1..] == s[1..] + rest;
      PrefixThen(s[1..], rest);
    }
  }

  lemma Powers()
    ensures Power(1000, 1) == 1_000 && Power(1000, 2) == 1_000_000 && Power(1000, 3) == 1_000_000_000
    ensures Power(1000, 4) == 1_000_000_000_000 && Power(1000, 5) == 1_000_000_000_000_000
    ensures Power(1000, 6) == 1_000_000_000_000_000_000
    ensures Power(1024, 1) == 1_024 && Power(1024, 2) == 1_048_576 && Power(1024, 3) == 1_073_741_824
    ensures Power(1024, 4) == 1_099_511_627_776 && Power(1024, 5) == 1_125_899_906_842_624
    ensures Power(1024, 6) == 1_152_921_504_606_846_976
  {
  }

  /** The suffixes that the parser knows count in what they say. */
  lemma SuffixCounts(letter: char, ending: string)
    requires SizeLetter(letter) && SizeEnding(ending)
    ensures Multiplier(Lower([letter] + ending)) == Ok(Factor(Lower([letter])[0], ending))
  {
    Powers();
    hide Power;
    var suffix := Lower([letter] + ending);
    assert suffix[0] == Lower([letter])[0] && suffix[1..] == Lower(ending);
    assert Lower(ending) == "" <==> ending == "";
  }

  /** No other ending of a size letter is known. */
  lemma OtherSuffixes(letter: char, ending: string)
    requires SizeLetter(letter) && !SizeEnding(ending)
    ensures Multiplier(Lower([letter] + ending)).Err?
  {
    hide Power;
    var suffix := Lower([letter] + ending);
    assert suffix[1..] == Lower(ending);
  }

  lemma SizeRune(c: char)
    requires SizeLetter(c) || c in "biBI"
    ensures !IsSpace(c) && !IsDigit(c) && c != '-'
  {
  }

  lemma LetterIsNoSpace(letter: char, ending: string)
    requires SizeLetter(letter) && (forall i :: 0 <= i < |ending| ==> ending[i] in "biBI")
    ensures Trim([letter] + ending) == [letter] + ending && !IsDigit(letter) && letter != '-'
  {
    hide SizeLetter, IsSpace;
    var s := [letter] + ending;
    SizeRune(letter);
    if ending != "" {
      SizeRune(ending[|ending| - 1]);
      assert s[|s| - 1] == ending[|ending| - 1];
    }
  }

  lemma EndingRunes(ending: string)
    requires SizeEnding(ending)
    ensures forall i :: 0 <= i < |ending| ==> ending[i] in "biBI"
  {
    forall i | 0 <= i < |ending| ensures ending[i] in "biBI" {
      assert Lower(ending)[i] in "bi";
    }
  }

  lemma SuffixIsSplit(n: int, letter: char, ending: string)
    requires -MAX_INT64 - 1 <= n <= MAX_INT64 && SizeLetter(letter) && forall i :: 0 <= i < |ending| ==> ending[i] in "biBI"
    ensures var val := Numeral(n) + ([letter] + ending);
            var p := NumberPrefix(val);
            && ParseInt64(val[..p]) == Int(n) && Trim(val[p..]) == [letter] + ending
  {
    hide NatNumeral, ParseInt64, Trim;
    var s, rest := Numeral(n), [letter] + ending;
    LetterIsNoSpace(letter, ending);
    PrefixThen(s, rest);
    assert (s + rest)[..|s|] == s && (s + rest)[|s|..] == rest;
    if n < 0 { ParsesNegative(-n); } else { ParsesNumeral(n); }
  }

  /** A size sets its number times what it counts in, in 64 bits. */
  lemma SizeSets(st: Stacks, n: int, letter: char, ending: string)
    requires -MAX_INT64 - 1 <= n <= MAX_INT64 && SizeLetter(letter) && SizeEnding(ending)
    ensures SetInteger(false, st, Bare(IntegerItem, Numeral(n) + ([letter] + ending)))
            == SetValue(false, st, Integer(Wrap64(n * Factor(Lower([letter])[0], ending))))
  {
    hide SetValue, Numeral, ParseInt64, Trim, NumberPrefix, Multiplier, Lower, Factor, Wrap64, SizeEnding, SizeLetter;
    EndingRunes(ending);
    SuffixIsSplit(n, letter, ending);
    SuffixCounts(letter, ending);
  }

  /** A number with another ending sets nothing: its key is left without a value. */
  lemma OtherSizeSetsNothing(st: Stacks, n: int, letter: char, ending: string)
    requires -MAX_INT64 - 1 <= n <= MAX_INT64 && SizeLetter(letter) && !SizeEnding(ending)
    requires forall i :: 0 <= i < |ending| ==> ending[i] in "biBI"
    ensures SetInteger(false, st, Bare(IntegerItem, Numeral(n) + ([letter] + ending))) == Ok(st)
  {
    hide SetValue, Numeral, ParseInt64, Trim, NumberPrefix, Multiplier, Lower, Wrap64, SizeEnding, SizeLetter;
    SuffixIsSplit(n, letter, ending);
    OtherSuffixes(letter, ending);
  }

  /** Comments are passed over. */
  lemma ProcessNote(w: World, refs: set<string>, st: Stacks, note: Note, rest: seq<Item>)
    ensures ProcessItems(w, refs, false, st, false, NoteItems(note) + rest) == ProcessItems(w, refs, false, st, false, rest)
  {
    if note.NoNote? {
      assert NoteItems(note) + rest == rest;
    } else {
      var mark, text := Bare(CommentStartItem, ""), Bare(TextItem, note.text);
      assert NoteItems(note) + rest == [mark] + ([text] + rest);
      ProcessFirst(w, refs, st, false, mark, [text] + rest);
      ProcessFirst(w, refs, st, false, text, rest);
    }
  }

  lemma RebuildsArray(w: World, refs: set<string>, st: Stacks, dangling: bool, es: seq<Tree>, rest: seq<Item>)
    requires st.ctxs != [] && Fits64(Arr(es))
    ensures ProcessItems(w, refs, false, st, dangling, Flatten(Arr(es)) + rest)
            == Then(w, refs, SetValue(false, st, Denote(Arr(es))), rest)
    decreases es, 1
  {
    hide SetValue, ProcessItems, CloseContext;
    var open, close := Bare(ArrayStartItem, ""), Bare(ArrayEndItem, "");
    assert Flatten(Arr(es)) + rest == [open] + (FlattenAll(es) + ([close] + rest));
    ProcessFirst(w, refs, st, dangling, open, FlattenAll(es) + ([close] + rest));
    RebuildsAll(w, refs, st, [], es, [close] + rest);
    assert [] + DenoteAll(es) == DenoteAll(es);
    var c := ArrayCtx(DenoteAll(es));
    ProcessFirst(w, refs, PushContext(st, c), false, close, rest);
    CloseSets(st, c, close);
  }

  lemma RebuildsObject(w: World, refs: set<string>, st: Stacks, dangling: bool, fs: seq<Field>, rest: seq<Item>)
    requires st.ctxs != [] && Fits64(Obj(fs))
    ensures ProcessItems(w, refs, false, st, dangling, Flatten(Obj(fs)) + rest)
            == Then(w, refs, SetValue(false, st, Denote(Obj(fs))), rest)
    decreases fs, 1
  {
    hide SetValue, ProcessItems, CloseContext;
    var open, close := Bare(MapStartItem, ""), Bare(MapEndItem, "");
    assert Flatten(Obj(fs)) + rest == [open] + (FlattenFields(fs) + ([close] + rest));
    ProcessFirst(w, refs, st, dangling, open, FlattenFields(fs) + ([close] + rest));
    RebuildsFields(w, refs, st, map[], fs, [close] + rest);
    var c := MapCtx(DenoteFields(map[], fs));
    ProcessFirst(w, refs, PushContext(st, c), false, close, rest);
    CloseSets(st, c, close);
  }

  /** Closing a context that lies on `st` sets its value in `st`. */
  lemma CloseSets(st: Stacks, c: Context, it: Item)
    requires st.ctxs != []
    ensures CloseContext(false, PushContext(st, c), it) == SetValue(false, st, ContextValue(c))
  {
    assert (st.ctxs + [c])[..|st.ctxs|] == st.ctxs;
  }

  lemma SetInList(st: Stacks, acc: seq<Value>, v: Value)
    ensures SetValue(false, PushContext(st, ArrayCtx(acc)), v) == Ok(PushContext(st, ArrayCtx(acc + [v])))
  {
    var n := |st.ctxs|;
    assert (st.ctxs + [ArrayCtx(acc)])[n := ArrayCtx(acc + [v])] == st.ctxs + [ArrayCtx(acc + [v])];
  }

  lemma SetInTable(st: Stacks, m: map<string, Value>, key: string, v: Value)
    ensures var here := PushContext(st, MapCtx(m));
            SetValue(false, here.(keys := here.keys + [key]), v) == Ok(PushContext(st, MapCtx(m[key := v])))
  {
    var n := |st.ctxs|;
    assert (st.ctxs + [MapCtx(m)])[n := MapCtx(m[key := v])] == st.ctxs + [MapCtx(m[key := v])];
    assert (st.keys + [key])[..|st.keys|] == st.keys;
  }

  lemma {:induction false} RebuildsAll(w: World, refs: set<string>, st: Stacks, acc: seq<Value>, es: seq<Tree>, rest: seq<Item>)
    requires Fits64(Arr(es))
    ensures ProcessItems(w, refs, false, PushContext(st, ArrayCtx(acc)), false, FlattenAll(es) + rest)
            == ProcessItems(w, refs, false, PushContext(st, ArrayCtx(acc + DenoteAll(es))), false, rest)
    decreases es, 0
  {
    hide SetValue, ProcessItem;
    if es == [] {
      assert FlattenAll(es) + rest == rest;
      assert acc + DenoteAll(es) == acc;
    } else {
      var here := PushContext(st, ArrayCtx(acc));
      var acc' := acc + [Denote(es[0])];
      assert FlattenAll(es) + rest == Flatten(es[0]) + (FlattenAll(es[1..]) + rest);
      Rebuilds(w, refs, here, false, es[0], FlattenAll(es[1..]) + rest);
      SetInList(st, acc, Denote(es[0]));
      RebuildsAll(w, refs, st, acc', es[1..], rest);
      assert acc' + DenoteAll(es[1..]) == acc + DenoteAll(es);
    }
  }

  lemma {:induction false} RebuildsFields(w: World, refs: set<string>, st: Stacks, m: map<string, Value>, fs: seq<Field>, rest: seq<Item>)
    requires Fits64(Obj(fs))
    ensures ProcessItems(w, refs, false, PushContext(st, MapCtx(m)), false, FlattenFields(fs) + rest)
            == ProcessItems(w, refs, false, PushContext(st, MapCtx(DenoteFields(m, fs))), false, rest)
    decreases fs, 0
  {
    hide SetValue, ProcessItems;
    if fs == [] {
      assert FlattenFields(fs) + rest == rest;
    } else {
      var key, v := fs[0].key, Denote(fs[0].value);
      var here := PushContext(st, MapCtx(m));
      var keyed := here.(keys := here.keys + [key]);
      var tail := Flatten(fs[0].value) + (FlattenFields(fs[1..]) + rest);
      assert FlattenFields(fs) + rest == NoteItems(fs[0].note) + ([Bare(KeyItem, key)] + tail);
      ProcessNote(w, refs, here, fs[0].note, [Bare(KeyItem, key)] + tail);
      ProcessKey(w, refs, here, false, key, tail);
      Rebuilds(w, refs, keyed, key != "}", fs[0].value, FlattenFields(fs[1..]) + rest);
      SetInTable(st, m, key, v);
      RebuildsFields(w, refs, st, m[key := v], fs[1..], rest);
    }
  }

  // ---------- Keys without a value ----------

  /** A map that is closed is bound to the key on top of the key stack. Its own key
      holds it exactly when no other key was left without a value inside it last,
      or the own key held the same before. */
  lemma ClosedMapTakesLastKey(st: Stacks, m: map<string, Value>, inner: map<string, Value>, own: string,
                              left: seq<string>, it: Item)
    ensures var last := if left == [] then own else left[|left| - 1];
            var open := PushContext(PushContext(st, MapCtx(m)), MapCtx(inner));
            var r := CloseContext(false, open.(keys := st.keys + [own] + left), it);
            && r.Ok? && |r.value.ctxs| == |st.ctxs| + 1
            && r.value.ctxs[|st.ctxs|] == MapCtx(m[last := Table(inner)])
            && (Bound(r.value.ctxs[|st.ctxs|].entries, own, Table(inner)) <==> last == own || Bound(m, own, Table(inner)))
  {
    var last := if left == [] then own else left[|left| - 1];
    var below := PushContext(st, MapCtx(m)).(keys := st.keys + [own] + left);
    var open := PushContext(below, MapCtx(inner));
    assert below.ctxs[|st.ctxs|] == MapCtx(m) && below.keys[|below.keys| - 1] == last;
    assert open == PushContext(PushContext(st, MapCtx(m)), MapCtx(inner)).(keys := st.keys + [own] + left);
    CloseSets(below, MapCtx(inner), it);
  }

  predicate Bound(m: map<string, Value>, key: string, v: Value) { key in m && m[key] == v }

  /** The items of `outer { fields, key }`. */
  function DanglingItems(outer: string, key: string, fs: seq<Field>): seq<Item> {
    [Bare(KeyItem, outer)] + ([Bare(MapStartItem, "")] + (FlattenFields(fs)
      + ([Bare(KeyItem, key)] + ([Bare(MapEndItem, "")] + [Bare(EofItem, "")]))))
  }

  /** With a key left without a value at its end, a map ends up under that key, and its
      own key stays on the stack. */
  lemma DanglingKeyTakesTheMap(w: World, refs: set<string>, m: map<string, Value>, outer: string, key: string, fs: seq<Field>)
    requires Fits64(Obj(fs))
    ensures ProcessItems(w, refs, false, Stacks([MapCtx(m)], [], []), false, DanglingItems(outer, key, fs))
            == Ok(Stacks([MapCtx(m[key := Table(DenoteFields(map[], fs))])], [outer], []))
  {
    hide SetValue, ProcessItem, ProcessItems, DenoteFields, FlattenFields;
    var eof, close, open := Bare(EofItem, ""), Bare(MapEndItem, ""), Bare(MapStartItem, "");
    var inner := DenoteFields(map[], fs);
    var start, st := Stacks([MapCtx(m)], [], []), Stacks([MapCtx(m)], [outer], []);
    var last := [Bare(KeyItem, key)] + ([close] + [eof]);
    assert [] + [outer] == [outer];
    ProcessKey(w, refs, start, false, outer, [open] + (FlattenFields(fs) + last));
    ProcessFirst(w, refs, st, outer != "}", open, FlattenFields(fs) + last);
    RebuildsFields(w, refs, st, map[], fs, last);
    var filled := PushContext(st, MapCtx(inner));
    ProcessKey(w, refs, filled, false, key, [close] + [eof]);
    ClosesUnderKey(w, refs, m, inner, outer, key);
    OpenAndClose(w, refs, st, filled, open, close);
  }

  lemma ClosesUnderKey(w: World, refs: set<string>, m: map<string, Value>, inner: map<string, Value>, outer: string, key: string)
    ensures var filled := PushContext(Stacks([MapCtx(m)], [outer], []), MapCtx(inner));
            ProcessItems(w, refs, false, filled.(keys := filled.keys + [key]), key != "}", [Bare(MapEndItem, "")] + [Bare(EofItem, "")])
            == Ok(Stacks([MapCtx(m[key := Table(inner)])], [outer], []))
  {
    hide SetValue, ProcessItem;
    var close, eof := Bare(MapEndItem, ""), Bare(EofItem, "");
    var filled := PushContext(Stacks([MapCtx(m)], [outer], []), MapCtx(inner));
    var keyed := filled.(keys := filled.keys + [key]);
    var below := Stacks([MapCtx(m)], [outer] + [key], []);
    assert keyed == PushContext(below, MapCtx(inner));
    CloseSets(below, MapCtx(inner), close);
    SetTop(below, m, key, Table(inner));
    assert ([outer] + [key])[..1] == [outer];
    ProcessFirst(w, refs, keyed, key != "}", close, [eof]);
    OpenAndClose(w, refs, below, keyed, close.(typ := MapStartItem), close);
  }

  lemma OpenAndClose(w: World, refs: set<string>, st: Stacks, st': Stacks, open: Item, close: Item)
    requires open.typ.MapStartItem? && close.typ.MapEndItem?
    ensures ProcessItem(w, refs, false, st, open) == Ok(PushContext(st, MapCtx(map[])))
    ensures ProcessItem(w, refs, false, st', close) == CloseContext(false, st', close)
  {
  }

  lemma SetTop(st: Stacks, m: map<string, Value>, key: string, v: Value)
    requires st.ctxs == [MapCtx(m)] && st.keys != [] && st.keys[|st.keys| - 1] == key
    ensures SetValue(false, st, v) == Ok(Stacks([MapCtx(m[key := v])], st.keys[..|st.keys| - 1], st.ikeys))
  {
    assert st.ctxs[0 := MapCtx(m[key := v])] == [MapCtx(m[key := v])];
  }
}
