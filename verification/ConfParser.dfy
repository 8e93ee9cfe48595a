/** The configuration parser: a stack machine that builds nested tables and
    lists from the lexer's items. In pedantic mode every value is wrapped in a
    token that remembers the item it came from. */
module ConfParser {
  import opened Ascii
  import opened ConfLexer
  import opened Int64

  datatype Value =
    | Text(text: string)
    | Integer(n: int)
    | Flag(b: bool)
    | Decimal(digits: string)
    | Moment(zulu: string)
    | List(elems: seq<Value>)
    | Table(entries: map<string, Value>)
    | Token(item: Item, value: Value, used: bool)

  /** A container that is still open. */
  datatype Context = MapCtx(entries: map<string, Value>) | ArrayCtx(elems: seq<Value>)

  /** The parser's stacks. The last context is the current one, and the first
      is the mapping that parsing returns. */
  datatype Stacks = Stacks(ctxs: seq<Context>, keys: seq<string>, ikeys: seq<Item>)

  /** `Panic` is a run-time panic of the source. */
  datatype Outcome<+T> = Ok(value: T) | Err | Panic

  /** What lies outside the text: environment variables, and the library calls
      that judge floats, dates and included files. */
  datatype World = World(vars: map<string, string>,
                         floatOk: string -> bool,
                         dateOk: string -> bool,
                         included: (string, bool) -> Outcome<seq<(string, Value)>>)

  // ---------- Scalars ----------

  /** How many leading runes are digits or minus signs. */
  function NumberPrefix(s: string): (n: nat)
    ensures n <= |s|
  {
    if s == [] || !(IsDigit(s[0]) || s[0] == '-') then 0 else 1 + NumberPrefix(s[1..])
  }

  function Power(base: int, n: nat): int {
    if n == 0 then 1 else base * Power(base, n - 1)
  }

  /** The multiplier of an integer suffix, or `Err` for a suffix that the
      parser's switch does not list. */
  function Multiplier(suffix: string): Outcome<int> {
    if suffix == "" then Ok(1)
    else
      var n := if suffix[0] == 'k' then 1 else if suffix[0] == 'm' then 2 else if suffix[0] == 'g' then 3
               else if suffix[0] == 't' then 4 else if suffix[0] == 'p' then 5 else if suffix[0] == 'e' then 6 else 0;
      if n == 0 then Err
      else if suffix[1..] == "" then Ok(Power(1000, n))
      else if suffix[1..] == "b" || suffix[1..] == "i" || suffix[1..] == "ib" then Ok(Power(1024, n))
      else Err
  }

  // ---------- Stack operations ----------

  function ContextValue(c: Context): Value {
    match c
    case MapCtx(m) => Table(m)
    case ArrayCtx(a) => List(a)
  }

  function PushContext(st: Stacks, c: Context): Stacks { st.(ctxs := st.ctxs + [c]) }

  /** Drop the current context. Popping the last one leaves the source without
      a current context to index, which panics as popping none does. */
  function PopContext(st: Stacks): Outcome<(Context, Stacks)> {
    var n := |st.ctxs|;
    if n <= 1 then Panic else Ok((st.ctxs[n - 1], st.(ctxs := st.ctxs[..n - 1])))
  }

  /** Put a value into the current context: at the end of a list, or under the
      key on top of the key stack. Pedantic mode keeps only tokens, at the
      position of their key. */
  function SetValue(pedantic: bool, st: Stacks, v: Value): Outcome<Stacks> {
    if st.ctxs == [] then Ok(st)
    else
      var n, k := |st.ctxs| - 1, |st.keys| - 1;
      match st.ctxs[n]
      case ArrayCtx(a) => Ok(st.(ctxs := st.ctxs[n := ArrayCtx(a + [v])]))
      case MapCtx(m) =>
        if st.keys == [] then Panic
        else if !pedantic then Ok(st.(ctxs := st.ctxs[n := MapCtx(m[st.keys[k] := v])], keys := st.keys[..k]))
        else if !v.Token? then Ok(st.(keys := st.keys[..k]))
        else if st.ikeys == [] then Panic
        else
          var i := |st.ikeys| - 1;
          var at := st.ikeys[i];
          var t := v.(item := v.item.(line := at.line, pos := at.pos));
          Ok(Stacks(st.ctxs[n := MapCtx(m[st.keys[k] := t])], st.keys[..k], st.ikeys[..i]))
  }

  /** Set a value that item `it` denotes. */
  function SetItem(pedantic: bool, st: Stacks, it: Item, v: Value): Outcome<Stacks> {
    SetValue(pedantic, st, if pedantic then Token(it, v, false) else v)
  }

  function CloseContext(pedantic: bool, st: Stacks, it: Item): Outcome<Stacks> {
    match PopContext(st)
    case Ok((c, below)) => SetItem(pedantic, below, it, ContextValue(c))
    case Err => Err
    case Panic => Panic
  }

  function SetInteger(pedantic: bool, st: Stacks, it: Item): Outcome<Stacks> {
    var n := NumberPrefix(it.val);
    match ParseInt64(it.val[..n])
    case Int(num) =>
      (match Multiplier(Lower(Trim(it.val[n..])))
       case Ok(m) => SetItem(pedantic, st, it, Integer(Wrap64(num * m)))
       case _ => Ok(st))  // no case of the switch: nothing is set
    case _ => Err
  }

  function SetBool(pedantic: bool, st: Stacks, it: Item): Outcome<Stacks> {
    var s := Lower(it.val);
    if s == "true" || s == "yes" || s == "on" then SetItem(pedantic, st, it, Flag(true))
    else if s == "false" || s == "no" || s == "off" then SetItem(pedantic, st, it, Flag(false))
    else Err
  }

  // ---------- Variables ----------

  /** The nearest open map, innermost first, that defines `name`. */
  function Scope(ctxs: seq<Context>, name: string): (i: int)
    ensures -1 <= i < |ctxs|
    ensures i >= 0 ==> ctxs[i].MapCtx? && name in ctxs[i].entries
    ensures forall j :: i < j < |ctxs| ==> !(ctxs[j].MapCtx? && name in ctxs[j].entries)
  {
    var n := |ctxs| - 1;
    if n < 0 then -1
    else if ctxs[n].MapCtx? && name in ctxs[n].entries then n
    else Scope(ctxs[..n], name)
  }

  function MarkUsed(ctxs: seq<Context>, i: nat, name: string): seq<Context>
    requires i < |ctxs| && ctxs[i].MapCtx? && name in ctxs[i].entries && ctxs[i].entries[name].Token?
  {
    var m := ctxs[i].entries;
    ctxs[i := MapCtx(m[name := m[name].(used := true)])]
  }

  predicate IsBcrypt(name: string) { "2a$" <= name }

  /** Store a looked-up value; a token is marked as used and wrapped anew. */
  function SetVariable(pedantic: bool, st: Stacks, it: Item, v: Value, scope: int): Outcome<Stacks>
    requires -1 <= scope < |st.ctxs|
    requires scope >= 0 ==> st.ctxs[scope].MapCtx? && it.val in st.ctxs[scope].entries && v == st.ctxs[scope].entries[it.val]
  {
    if !pedantic then SetValue(false, st, v)
    else if scope >= 0 && v.Token? then
      SetValue(true, st.(ctxs := MarkUsed(st.ctxs, scope, it.val)), Token(it, v.value, false))
    else SetValue(true, st, Token(it, if v.Token? then v.value else v, false))
  }

  /** Include: push each key and set its value. */
  function SetIncluded(pedantic: bool, st: Stacks, pairs: seq<(string, Value)>): Outcome<Stacks>
    decreases |pairs|
  {
    if pairs == [] then Ok(st)
    else
      var (k, v) := pairs[0];
      var keyed := st.(keys := st.keys + [k], ikeys := if pedantic && v.Token? then st.ikeys + [v.item] else st.ikeys);
      match SetValue(pedantic, keyed, v)
      case Ok(st') => SetIncluded(pedantic, st', pairs[1..])
      case Err => Err
      case Panic => Panic
  }

  // ---------- Items ----------

  const PKEY := "pk"

  function ProcessItem(w: World, refs: set<string>, pedantic: bool, st: Stacks, it: Item): Outcome<Stacks>
    decreases |w.vars.Keys - refs|, 1, 0
  {
    match it.typ
    case ErrorItem => Err
    case KeyItem => Ok(st.(keys := st.keys + [it.val], ikeys := if pedantic then st.ikeys + [it] else st.ikeys))
    case MapStartItem => Ok(PushContext(st, MapCtx(map[])))
    case ArrayStartItem => Ok(PushContext(st, ArrayCtx([])))
    case MapEndItem => CloseContext(pedantic, st, it)
    case ArrayEndItem => CloseContext(pedantic, st, it)
    case StringItem => SetItem(pedantic, st, it, Text(it.val))
    case IntegerItem => SetInteger(pedantic, st, it)
    case FloatItem => if w.floatOk(it.val) then SetItem(pedantic, st, it, Decimal(it.val)) else Err
    case BoolItem => SetBool(pedantic, st, it)
    case DatetimeItem => if w.dateOk(it.val) then SetItem(pedantic, st, it, Moment(it.val)) else Err
    case VariableItem => ProcessVariable(w, refs, pedantic, st, it)
    case IncludeItem =>
      (match w.included(it.val, pedantic)
       case Ok(pairs) => SetIncluded(pedantic, st, pairs)
       case _ => Err)
    case EofItem => Ok(st)
    case TextItem => Ok(st)
    case CommentStartItem => Ok(st)
  }

  /** A variable is a raw bcrypt string, or is defined by an open map, or comes
      from the environment. */
  function ProcessVariable(w: World, refs: set<string>, pedantic: bool, st: Stacks, it: Item): Outcome<Stacks>
    decreases |w.vars.Keys - refs|, 0, 1
  {
    var i := Scope(st.ctxs, it.val);
    if IsBcrypt(it.val) then SetVariable(pedantic, st, it, Text("$" + it.val), -1)
    else if i >= 0 then SetVariable(pedantic, st, it, st.ctxs[i].entries[it.val], i)
    else match LookupEnv(w, refs, it.val)
      case Ok(v) => SetVariable(pedantic, st, it, v, -1)
      case Err => Err
      case Panic => Panic
  }

  /** A variable that no open map defines comes from the environment, parsed on
      its own. A variable that refers back to itself is an error. */
  function LookupEnv(w: World, refs: set<string>, name: string): Outcome<Value>
    decreases |w.vars.Keys - refs|, 0, 0
  {
    if name in refs || name !in w.vars then Err
    else
      FewerVariables(w, refs, name);
      match ParseText(w, refs + {name}, false, PKEY + "=" + w.vars[name])
      case Ok(m) => if PKEY in m then Ok(m[PKEY]) else Err
      case Err => Err
      case Panic => Panic
  }

  lemma FewerVariables(w: World, refs: set<string>, name: string)
    requires name !in refs && name in w.vars
    ensures |w.vars.Keys - (refs + {name})| < |w.vars.Keys - refs|
  {
    var more := w.vars.Keys - refs;
    assert w.vars.Keys - (refs + {name}) == more - {name};
  }

  /** Process items up to the end of the file. A key with no value at the very
      end is an error, unless it is a closing brace. */
  function ProcessItems(w: World, refs: set<string>, pedantic: bool, st: Stacks, dangling: bool, items: seq<Item>): Outcome<Stacks>
    decreases |w.vars.Keys - refs|, 2, |items|
  {
    if items == [] || items[0].typ.EofItem? then (if dangling then Err else Ok(st))
    else
      match ProcessItem(w, refs, pedantic, st, items[0])
      case Ok(st') => ProcessItems(w, refs, pedantic, st', items[0].typ.KeyItem? && items[0].val != "}", items[1..])
      case Err => Err
      case Panic => Panic
  }

  const Root := Stacks([MapCtx(map[])], [], [])

  function ParseText(w: World, refs: set<string>, pedantic: bool, text: string): Outcome<map<string, Value>>
    decreases |w.vars.Keys - refs|, 3, 0
  {
    match ProcessItems(w, refs, pedantic, Root, false, Lex(text))
    case Ok(st) => if st.ctxs != [] && st.ctxs[0].MapCtx? then Ok(st.ctxs[0].entries) else Panic
    case Err => Err
    case Panic => Panic
  }

  function Parse(w: World, pedantic: bool, text: string): Outcome<map<string, Value>> {
    ParseText(w, {}, pedantic, text)
  }

  // ---------- No panics ----------

  function KindOf(c: Context): Kind { if c.MapCtx? then MapKind else ArrayKind }

  /** The contexts are the open containers, and at least `keys` keys are on hand. */
  predicate Shaped(pedantic: bool, st: Stacks, open: seq<Kind>, keys: int) {
    && |st.ctxs| == |open|
    && (forall i :: 0 <= i < |open| ==> KindOf(st.ctxs[i]) == open[i])
    && keys <= |st.keys|
    && (pedantic ==> |st.ikeys| == |st.keys|)
  }

  /** The keys left after a value arrives in the innermost container. */
  function KeysTaken(open: seq<Kind>, keys: int): int
    requires open != []
  {
    if open[|open| - 1].MapKind? then keys - 1 else keys
  }

  /** The result of an operation neither panics nor loses the shape. */
  predicate Safe(pedantic: bool, r: Outcome<Stacks>, open: seq<Kind>, keys: int) {
    !r.Panic? && (r.Ok? ==> Shaped(pedantic, r.value, open, keys))
  }

  lemma SetValueIsSafe(pedantic: bool, st: Stacks, v: Value, open: seq<Kind>, keys: int)
    requires Shaped(pedantic, st, open, keys) && open != [] && (pedantic ==> v.Token?)
    requires open[|open| - 1].MapKind? ==> 1 <= keys
    ensures Safe(pedantic, SetValue(pedantic, st, v), open, KeysTaken(open, keys))
  {
  }

  lemma CloseContextIsSafe(pedantic: bool, st: Stacks, it: Item, open: seq<Kind>, keys: int)
    requires Shaped(pedantic, st, open, keys) && 2 <= |open|
    requires open[|open| - 2].MapKind? ==> 1 <= keys
    ensures Safe(pedantic, CloseContext(pedantic, st, it), open[..|open| - 1], KeysTaken(open[..|open| - 1], keys))
  {
    var (c, below) := PopContext(st).value;
    SetValueIsSafe(pedantic, below, if pedantic then Token(it, ContextValue(c), false) else ContextValue(c), open[..|open| - 1], keys);
  }

  lemma {:induction false} SetIncludedIsSafe(pedantic: bool, st: Stacks, pairs: seq<(string, Value)>, open: seq<Kind>, keys: int)
    requires Shaped(pedantic, st, open, keys) && open != [] && open[|open| - 1].MapKind?
    ensures Safe(pedantic, SetIncluded(pedantic, st, pairs), open, keys)
    decreases |pairs|
  {
    if pairs != [] {
      var (k, v) := pairs[0];
      var keyed := st.(keys := st.keys + [k], ikeys := if pedantic && v.Token? then st.ikeys + [v.item] else st.ikeys);
      var r := SetValue(pedantic, keyed, v);
      assert Safe(pedantic, r, open, keys);
      SetIncludedIsSafe(pedantic, r.value, pairs[1..], open, keys);
    }
  }

  lemma SetVariableIsSafe(pedantic: bool, st: Stacks, it: Item, v: Value, scope: int, open: seq<Kind>, keys: int)
    requires Shaped(pedantic, st, open, keys) && open != []
    requires open[|open| - 1].MapKind? ==> 1 <= keys
    requires -1 <= scope < |st.ctxs|
    requires scope >= 0 ==> st.ctxs[scope].MapCtx? && it.val in st.ctxs[scope].entries && v == st.ctxs[scope].entries[it.val]
    ensures Safe(pedantic, SetVariable(pedantic, st, it, v, scope), open, KeysTaken(open, keys))
  {
    var t := Token(it, if v.Token? then v.value else v, false);
    if !pedantic {
      SetValueIsSafe(pedantic, st, v, open, keys);
    } else if scope >= 0 && v.Token? {
      SetValueIsSafe(pedantic, st.(ctxs := MarkUsed(st.ctxs, scope, it.val)), t, open, keys);
    } else {
      SetValueIsSafe(pedantic, st, t, open, keys);
    }
  }

  lemma SetItemIsSafe(pedantic: bool, st: Stacks, it: Item, v: Value, open: seq<Kind>, keys: int)
    requires Shaped(pedantic, st, open, keys) && open != []
    requires open[|open| - 1].MapKind? ==> 1 <= keys
    ensures Safe(pedantic, SetItem(pedantic, st, it, v), open, KeysTaken(open, keys))
  {
    SetValueIsSafe(pedantic, st, if pedantic then Token(it, v, false) else v, open, keys);
  }

  /** Integers keep the shape too, even when the parser drops them. */
  lemma SetIntegerIsSafe(pedantic: bool, st: Stacks, it: Item, open: seq<Kind>, keys: int)
    requires Shaped(pedantic, st, open, keys) && open != []
    requires open[|open| - 1].MapKind? ==> 1 <= keys
    ensures Safe(pedantic, SetInteger(pedantic, st, it), open, KeysTaken(open, keys))
  {
    var n := NumberPrefix(it.val);
    var num := ParseInt64(it.val[..n]);
    var m := Multiplier(Lower(Trim(it.val[n..])));
    if num.Int? && m.Ok? {
      SetItemIsSafe(pedantic, st, it, Integer(Wrap64(num.value * m.value)), open, keys);
    }
  }

  lemma SetBoolIsSafe(pedantic: bool, st: Stacks, it: Item, open: seq<Kind>, keys: int)
    requires Shaped(pedantic, st, open, keys) && open != []
    requires open[|open| - 1].MapKind? ==> 1 <= keys
    ensures Safe(pedantic, SetBool(pedantic, st, it), open, KeysTaken(open, keys))
  {
    hide SetItem, Shaped, KeysTaken;
    SetItemIsSafe(pedantic, st, it, Flag(true), open, keys);
    SetItemIsSafe(pedantic, st, it, Flag(false), open, keys);
  }

  lemma ValueItemIs(w: World, refs: set<string>, pedantic: bool, st: Stacks, it: Item)
    ensures var r := ProcessItem(w, refs, pedantic, st, it);
            match it.typ
            case StringItem => r == SetItem(pedantic, st, it, Text(it.val))
            case IntegerItem => r == SetInteger(pedantic, st, it)
            case FloatItem => r == Err || r == SetItem(pedantic, st, it, Decimal(it.val))
            case BoolItem => r == SetBool(pedantic, st, it)
            case DatetimeItem => r == Err || r == SetItem(pedantic, st, it, Moment(it.val))
            case VariableItem => r == ProcessVariable(w, refs, pedantic, st, it)
            case _ => true
  {
    hide SetItem, SetBool, SetInteger, ProcessVariable, CloseContext, SetIncluded;
  }

  /** Scalars and variables take a key from an innermost map. */
  lemma ValueItemIsSafe(w: World, refs: set<string>, pedantic: bool, st: Stacks, it: Item, open: seq<Kind>, keys: int)
    requires Shaped(pedantic, st, open, keys) && open != [] && ScalarType(it.typ)
    requires open[|open| - 1].MapKind? ==> 1 <= keys
    ensures Safe(pedantic, ProcessItem(w, refs, pedantic, st, it), open, KeysTaken(open, keys))
    decreases |w.vars.Keys - refs|, 1, 0
  {
    hide SetItem, SetBool, SetInteger, ProcessItem, ProcessVariable, Shaped, KeysTaken, CloseContext, SetIncluded;
    ValueItemIs(w, refs, pedantic, st, it);
    match it.typ
    case StringItem => SetItemIsSafe(pedantic, st, it, Text(it.val), open, keys);
    case IntegerItem => SetIntegerIsSafe(pedantic, st, it, open, keys);
    case FloatItem => SetItemIsSafe(pedantic, st, it, Decimal(it.val), open, keys);
    case BoolItem => SetBoolIsSafe(pedantic, st, it, open, keys);
    case DatetimeItem => SetItemIsSafe(pedantic, st, it, Moment(it.val), open, keys);
    case VariableItem => ProcessVariableIsSafe(w, refs, pedantic, st, it, open, keys);
  }

  lemma ProcessVariableIsSafe(w: World, refs: set<string>, pedantic: bool, st: Stacks, it: Item, open: seq<Kind>, keys: int)
    requires Shaped(pedantic, st, open, keys) && open != []
    requires open[|open| - 1].MapKind? ==> 1 <= keys
    ensures Safe(pedantic, ProcessVariable(w, refs, pedantic, st, it), open, KeysTaken(open, keys))
    decreases |w.vars.Keys - refs|, 0, 1
  {
    var i := Scope(st.ctxs, it.val);
    if IsBcrypt(it.val) {
      SetVariableIsSafe(pedantic, st, it, Text("$" + it.val), -1, open, keys);
    } else if i >= 0 {
      SetVariableIsSafe(pedantic, st, it, st.ctxs[i].entries[it.val], i, open, keys);
    } else {
      LookupEnvIsSafe(w, refs, it.val);
      var r := LookupEnv(w, refs, it.val);
      if r.Ok? {
        SetVariableIsSafe(pedantic, st, it, r.value, -1, open, keys);
      }
    }
  }

  lemma LookupEnvIsSafe(w: World, refs: set<string>, name: string)
    ensures !LookupEnv(w, refs, name).Panic?
    decreases |w.vars.Keys - refs|, 0, 0
  {
    if name !in refs && name in w.vars {
      FewerVariables(w, refs, name);
      ParseTextIsSafe(w, refs + {name}, false, PKEY + "=" + w.vars[name]);
    }
  }

  lemma {:induction false} ProcessItemsIsSafe(w: World, refs: set<string>, pedantic: bool, st: Stacks, dangling: bool,
                                              items: seq<Item>, open: seq<Kind>, keys: nat)
    requires Shaped(pedantic, st, open, keys) && open != [] && open[0].MapKind? && Nested(open, keys, items)
    ensures var r := ProcessItems(w, refs, pedantic, st, dangling, items);
            !r.Panic? && (r.Ok? ==> r.value.ctxs != [] && r.value.ctxs[0].MapCtx?)
    decreases |w.vars.Keys - refs|, 2, |items|
  {
    hide SetValue, CloseContext, SetInteger, SetBool, SetVariable, ProcessVariable, SetIncluded;
    if items == [] || items[0].typ.EofItem? || items[0].typ.ErrorItem? {
      return;
    }
    var it, rest := items[0], items[1..];
    var outer := open[..|open| - 1];
    var dangling' := it.typ.KeyItem? && it.val != "}";
    var r := ProcessItem(w, refs, pedantic, st, it);
    var open', keys' := open, keys;
    if it.typ.KeyItem? {
      keys' := keys + 1;
    } else if it.typ.MapStartItem? {
      open' := open + [MapKind];
    } else if it.typ.ArrayStartItem? {
      open' := open + [ArrayKind];
    } else if it.typ.MapEndItem? || it.typ.ArrayEndItem? {
      CloseContextIsSafe(pedantic, st, it, open, keys);
      open', keys' := outer, KeysTaken(outer, keys);
    } else if it.typ.IncludeItem? {
      var included := w.included(it.val, pedantic);
      if included.Ok? {
        SetIncludedIsSafe(pedantic, st, included.value, open, keys);
      }
    } else if ScalarType(it.typ) {
      ValueItemIsSafe(w, refs, pedantic, st, it, open, keys);
      keys' := KeysTaken(open, keys);
    }
    assert Safe(pedantic, r, open', keys');
    if r.Ok? {
      ProcessItemsIsSafe(w, refs, pedantic, r.value, dangling', rest, open', keys');
    }
  }

  lemma ParseTextIsSafe(w: World, refs: set<string>, pedantic: bool, text: string)
    ensures !ParseText(w, refs, pedantic, text).Panic?
    decreases |w.vars.Keys - refs|, 3, 0
  {
    LexIsNested(text);
    ProcessItemsIsSafe(w, refs, pedantic, Root, false, Lex(text), [MapKind], 0);
  }

  // ---------- Included files ----------

  /** The world in which included files are texts that are parsed in the same way,
      down to a depth. A map's entries come in the order of `listing`. */
  function Including(w: World, files: map<string, string>, listing: map<string, Value> -> seq<(string, Value)>, depth: nat): World {
    w.(included := (path: string, pedantic: bool) =>
         if depth == 0 || path !in files then Err
         else
           match ParseText(Including(w, files, listing, depth - 1), {}, pedantic, files[path])
           case Ok(m) => Ok(listing(m))
           case Err => Err
           case Panic => Panic)
  }

  /** Parsing an included file does not panic, at any depth, so that no panic is
      taken for an error; neither does parsing a text that includes it. */
  lemma IncludesAreSafe(w: World, files: map<string, string>, listing: map<string, Value> -> seq<(string, Value)>, depth: nat,
                        path: string, pedantic: bool, text: string)
    ensures !Including(w, files, listing, depth).included(path, pedantic).Panic?
    ensures !Parse(Including(w, files, listing, depth), pedantic, text).Panic?
  {
    hide ParseText;
    ParseTextIsSafe(Including(w, files, listing, depth), {}, pedantic, text);
    if depth > 0 && path in files {
      ParseTextIsSafe(Including(w, files, listing, depth - 1), {}, pedantic, files[path]);
    }
  }
}
