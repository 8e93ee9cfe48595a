/** Pedantic parsing means the same as plain parsing: erasing the tokens from
    its result gives the plain result, and the two fail together. */
module ConfErasure {
  import opened Ascii
  import opened ConfLexer
  import opened ConfParser
  import opened Int64

  function Erase(v: Value): Value {
    match v
    case Text(_) => v
    case Integer(_) => v
    case Flag(_) => v
    case Decimal(_) => v
    case Moment(_) => v
    case List(es) => List(seq(|es|, i requires 0 <= i < |es| => Erase(es[i])))
    case Table(m) => Table(map k | k in m :: Erase(m[k]))
    case Token(_, inner, _) => Erase(inner)
  }

  function EraseMap(m: map<string, Value>): map<string, Value> {
    map k | k in m :: Erase(m[k])
  }

  function EraseCtx(c: Context): Context {
    match c
    case MapCtx(m) => MapCtx(EraseMap(m))
    case ArrayCtx(a) => ArrayCtx(seq(|a|, i requires 0 <= i < |a| => Erase(a[i])))
  }

  function EraseCtxs(ctxs: seq<Context>): seq<Context> {
    seq(|ctxs|, i requires 0 <= i < |ctxs| => EraseCtx(ctxs[i]))
  }

  /** The pedantic stacks `p` and the plain stacks `q` stand for the same. */
  predicate Mirrors(p: Stacks, q: Stacks) {
    q.ctxs == EraseCtxs(p.ctxs) && q.keys == p.keys && |p.ikeys| == |p.keys|
  }

  /** The two modes fail together, or both go on with stacks that mirror. */
  predicate Agree(p: Outcome<Stacks>, q: Outcome<Stacks>) {
    match p
    case Ok(st) => q.Ok? && Mirrors(st, q.value)
    case Err => q.Err?
    case Panic => q.Panic?
  }

  /** Stacks of the plain mode hold no token anywhere. */
  predicate Plain(st: Stacks) { EraseCtxs(st.ctxs) == st.ctxs }

  /** Included files agree in the two modes as well. */
  ghost predicate IncludesAgree(w: World) {
    forall path :: IncludeAgrees(w, path)
  }

  predicate IncludeAgrees(w: World, path: string) {
    match (w.included(path, true), w.included(path, false))
    case (Ok(ps), Ok(qs)) => |ps| == |qs| && forall i :: 0 <= i < |ps| ==> PairAgrees(ps[i], qs[i])
    case (Ok(_), _) => false
    case (_, Ok(_)) => false
    case _ => true
  }

  predicate PairAgrees(p: (string, Value), q: (string, Value)) {
    p.0 == q.0 && p.1.Token? && Erase(p.1) == q.1
  }

  lemma {:induction false} EraseIsIdempotent(v: Value)
    ensures Erase(Erase(v)) == Erase(v)
  {
    match v
    case Text(_) =>
    case Integer(_) =>
    case Flag(_) =>
    case Decimal(_) =>
    case Moment(_) =>
    case List(es) => forall i | 0 <= i < |es| { EraseIsIdempotent(es[i]); }
    case Table(m) => forall k | k in m { EraseIsIdempotent(m[k]); }
    case Token(_, inner, _) => EraseIsIdempotent(inner);
  }

  lemma EraseUpdate(m: map<string, Value>, k: string, v: Value)
    ensures EraseMap(m[k := v]) == EraseMap(m)[k := Erase(v)]
  {
  }

  lemma EraseContext(c: Context)
    ensures Erase(ContextValue(c)) == ContextValue(EraseCtx(c))
  {
  }

  // ---------- Both modes, step by step ----------

  lemma SetValueAgrees(p: Stacks, q: Stacks, v: Value)
    requires Mirrors(p, q) && v.Token?
    ensures Agree(SetValue(true, p, v), SetValue(false, q, Erase(v)))
  {
    if p.ctxs != [] {
      var n, k := |p.ctxs| - 1, |p.keys| - 1;
      match p.ctxs[n]
      case ArrayCtx(a) =>
        assert EraseCtx(ArrayCtx(a + [v])) == ArrayCtx(EraseCtx(p.ctxs[n]).elems + [Erase(v)]);
      case MapCtx(m) =>
        if p.keys != [] {
          var at := p.ikeys[|p.ikeys| - 1];
          var t := v.(item := v.item.(line := at.line, pos := at.pos));
          EraseUpdate(m, p.keys[k], t);
        }
    }
  }

  lemma SetItemAgrees(p: Stacks, q: Stacks, it: Item, v: Value)
    requires Mirrors(p, q) && Erase(v) == v
    ensures Agree(SetItem(true, p, it, v), SetItem(false, q, it, v))
  {
    SetValueAgrees(p, q, Token(it, v, false));
  }

  lemma CloseContextAgrees(p: Stacks, q: Stacks, it: Item)
    requires Mirrors(p, q)
    ensures Agree(CloseContext(true, p, it), CloseContext(false, q, it))
  {
    if |p.ctxs| > 1 {
      var (c, p') := PopContext(p).value;
      var (d, q') := PopContext(q).value;
      EraseContext(c);
      SetValueAgrees(p', q', Token(it, ContextValue(c), false));
    }
  }

  lemma SetIntegerAgrees(p: Stacks, q: Stacks, it: Item)
    requires Mirrors(p, q)
    ensures Agree(SetInteger(true, p, it), SetInteger(false, q, it))
  {
    var n := NumberPrefix(it.val);
    var num := ParseInt64(it.val[..n]);
    var m := Multiplier(Lower(Trim(it.val[n..])));
    if num.Int? && m.Ok? {
      SetItemAgrees(p, q, it, Integer(Wrap64(num.value * m.value)));
    }
  }

  lemma {:induction false} SetIncludedAgrees(p: Stacks, q: Stacks, ps: seq<(string, Value)>, qs: seq<(string, Value)>)
    requires Mirrors(p, q) && |ps| == |qs|
    requires forall i :: 0 <= i < |ps| ==> PairAgrees(ps[i], qs[i])
    ensures Agree(SetIncluded(true, p, ps), SetIncluded(false, q, qs))
    decreases |ps|
  {
    if ps != [] {
      assert PairAgrees(ps[0], qs[0]);
      var (k, v) := ps[0];
      var p' := p.(keys := p.keys + [k], ikeys := p.ikeys + [v.item]);
      var q' := q.(keys := q.keys + [k]);
      SetValueAgrees(p', q', v);
      var r, s := SetValue(true, p', v), SetValue(false, q', Erase(v));
      if r.Ok? {
        SetIncludedAgrees(r.value, s.value, ps[1..], qs[1..]);
      }
    }
  }

  lemma {:induction false} ScopeAgrees(ctxs: seq<Context>, name: string)
    ensures Scope(EraseCtxs(ctxs), name) == Scope(ctxs, name)
    decreases |ctxs|
  {
    var n := |ctxs| - 1;
    if n >= 0 {
      assert EraseCtxs(ctxs)[..n] == EraseCtxs(ctxs[..n]);
      ScopeAgrees(ctxs[..n], name);
    }
  }

  lemma MarkUsedErases(ctxs: seq<Context>, i: nat, name: string)
    requires i < |ctxs| && ctxs[i].MapCtx? && name in ctxs[i].entries && ctxs[i].entries[name].Token?
    ensures EraseCtxs(MarkUsed(ctxs, i, name)) == EraseCtxs(ctxs)
  {
    var m := ctxs[i].entries;
    EraseUpdate(m, name, m[name].(used := true));
    assert EraseMap(m)[name := Erase(m[name])] == EraseMap(m);
  }

  /** A looked-up value is set alike in both modes. */
  lemma SetVariableAgrees(p: Stacks, q: Stacks, it: Item, v: Value, scope: int)
    requires Mirrors(p, q) && -1 <= scope < |p.ctxs|
    requires scope >= 0 ==> p.ctxs[scope].MapCtx? && it.val in p.ctxs[scope].entries && v == p.ctxs[scope].entries[it.val]
    ensures Agree(SetVariable(true, p, it, v, scope), SetVariable(false, q, it, Erase(v), scope))
  {
    var t := Token(it, if v.Token? then v.value else v, false);
    if scope >= 0 && v.Token? {
      MarkUsedErases(p.ctxs, scope, it.val);
      SetValueAgrees(p.(ctxs := MarkUsed(p.ctxs, scope, it.val)), q, t);
    } else {
      SetValueAgrees(p, q, t);
    }
  }

  lemma ProcessItemAgrees(w: World, refs: set<string>, p: Stacks, q: Stacks, it: Item)
    requires Mirrors(p, q) && IncludesAgree(w)
    ensures Agree(ProcessItem(w, refs, true, p, it), ProcessItem(w, refs, false, q, it))
  {
    match it.typ
    case ErrorItem =>
    case KeyItem =>
    case MapStartItem => assert EraseCtx(MapCtx(map[])) == MapCtx(map[]);
    case ArrayStartItem => assert EraseCtx(ArrayCtx([])) == ArrayCtx([]);
    case MapEndItem => CloseContextAgrees(p, q, it);
    case ArrayEndItem => CloseContextAgrees(p, q, it);
    case StringItem => SetItemAgrees(p, q, it, Text(it.val));
    case IntegerItem => SetIntegerAgrees(p, q, it);
    case FloatItem => SetItemAgrees(p, q, it, Decimal(it.val));
    case BoolItem =>
      SetItemAgrees(p, q, it, Flag(true));
      SetItemAgrees(p, q, it, Flag(false));
    case DatetimeItem => SetItemAgrees(p, q, it, Moment(it.val));
    case VariableItem => ProcessVariableAgrees(w, refs, p, q, it);
    case IncludeItem =>
      assert IncludeAgrees(w, it.val);
      var r, s := w.included(it.val, true), w.included(it.val, false);
      if r.Ok? && s.Ok? {
        SetIncludedAgrees(p, q, r.value, s.value);
      }
    case EofItem =>
    case TextItem =>
    case CommentStartItem =>
  }

  lemma ProcessVariableAgrees(w: World, refs: set<string>, p: Stacks, q: Stacks, it: Item)
    requires Mirrors(p, q) && IncludesAgree(w)
    ensures Agree(ProcessVariable(w, refs, true, p, it), ProcessVariable(w, refs, false, q, it))
  {
    var i := Scope(p.ctxs, it.val);
    ScopeAgrees(p.ctxs, it.val);
    if IsBcrypt(it.val) {
      SetVariableAgrees(p, q, it, Text("$" + it.val), -1);
    } else if i >= 0 {
      SetVariableAgrees(p, q, it, p.ctxs[i].entries[it.val], i);
    } else {
      var r := LookupEnv(w, refs, it.val);
      if r.Ok? {
        LookupEnvIsPlain(w, refs, it.val);
        SetVariableAgrees(p, q, it, r.value, -1);
      }
    }
  }

  // ---------- The plain mode makes no tokens ----------

  /** The plain stacks mirror themselves; this carries a plain value along. */
  lemma PlainSetValue(st: Stacks, v: Value)
    requires Plain(st) && Erase(v) == v
    ensures var r := SetValue(false, st, v); r.Ok? ==> Plain(r.value)
  {
    if st.ctxs != [] {
      var n, k := |st.ctxs| - 1, |st.keys| - 1;
      assert EraseCtx(st.ctxs[n]) == st.ctxs[n];
      match st.ctxs[n]
      case ArrayCtx(a) =>
        assert EraseCtx(ArrayCtx(a + [v])).elems == EraseCtx(st.ctxs[n]).elems + [Erase(v)];
      case MapCtx(m) =>
        if st.keys != [] { EraseUpdate(m, st.keys[k], v); }
    }
  }

  lemma PlainCloseContext(st: Stacks, it: Item)
    requires Plain(st)
    ensures var r := CloseContext(false, st, it); r.Ok? ==> Plain(r.value)
  {
    if |st.ctxs| > 1 {
      var (c, below) := PopContext(st).value;
      assert EraseCtx(c) == c by { assert EraseCtxs(st.ctxs)[|st.ctxs| - 1] == c; }
      assert EraseCtxs(below.ctxs) == EraseCtxs(st.ctxs)[..|below.ctxs|];
      EraseContext(c);
      PlainSetValue(below, ContextValue(c));
    }
  }

  lemma {:induction false} PlainSetIncluded(st: Stacks, pairs: seq<(string, Value)>)
    requires Plain(st) && forall i :: 0 <= i < |pairs| ==> Erase(pairs[i].1) == pairs[i].1
    ensures var r := SetIncluded(false, st, pairs); r.Ok? ==> Plain(r.value)
    decreases |pairs|
  {
    if pairs != [] {
      var keyed := st.(keys := st.keys + [pairs[0].0]);
      PlainSetValue(keyed, pairs[0].1);
      var r := SetValue(false, keyed, pairs[0].1);
      if r.Ok? { PlainSetIncluded(r.value, pairs[1..]); }
    }
  }

  lemma PlainProcessItem(w: World, refs: set<string>, st: Stacks, it: Item)
    requires Plain(st) && IncludesAgree(w)
    ensures var r := ProcessItem(w, refs, false, st, it); r.Ok? ==> Plain(r.value)
    decreases |w.vars.Keys - refs|, 1, 0
  {
    match it.typ
    case ErrorItem =>
    case KeyItem =>
    case MapStartItem => assert EraseCtx(MapCtx(map[])) == MapCtx(map[]);
    case ArrayStartItem => assert EraseCtx(ArrayCtx([])) == ArrayCtx([]);
    case MapEndItem => PlainCloseContext(st, it);
    case ArrayEndItem => PlainCloseContext(st, it);
    case StringItem => PlainSetValue(st, Text(it.val));
    case IntegerItem =>
      var n := NumberPrefix(it.val);
      var num := ParseInt64(it.val[..n]);
      var m := Multiplier(Lower(Trim(it.val[n..])));
      if num.Int? && m.Ok? { PlainSetValue(st, Integer(Wrap64(num.value * m.value))); }
    case FloatItem => PlainSetValue(st, Decimal(it.val));
    case BoolItem =>
      PlainSetValue(st, Flag(true));
      PlainSetValue(st, Flag(false));
    case DatetimeItem => PlainSetValue(st, Moment(it.val));
    case VariableItem => PlainProcessVariable(w, refs, st, it);
    case IncludeItem => PlainIncludes(w, st, it);
    case EofItem =>
    case TextItem =>
    case CommentStartItem =>
  }

  lemma PlainIncludes(w: World, st: Stacks, it: Item)
    requires Plain(st) && IncludesAgree(w)
    ensures var r := w.included(it.val, false); r.Ok? ==> var s := SetIncluded(false, st, r.value); s.Ok? ==> Plain(s.value)
  {
    assert IncludeAgrees(w, it.val);
    var p, r := w.included(it.val, true), w.included(it.val, false);
    if r.Ok? {
      forall i | 0 <= i < |r.value| ensures Erase(r.value[i].1) == r.value[i].1 {
        assert PairAgrees(p.value[i], r.value[i]);
        EraseIsIdempotent(p.value[i].1);
      }
      PlainSetIncluded(st, r.value);
    }
  }

  lemma PlainProcessVariable(w: World, refs: set<string>, st: Stacks, it: Item)
    requires Plain(st) && IncludesAgree(w)
    ensures var r := ProcessVariable(w, refs, false, st, it); r.Ok? ==> Plain(r.value)
    decreases |w.vars.Keys - refs|, 0, 1
  {
    var i := Scope(st.ctxs, it.val);
    if IsBcrypt(it.val) {
      PlainSetValue(st, Text("$" + it.val));
    } else if i >= 0 {
      assert EraseCtxs(st.ctxs)[i] == EraseCtx(st.ctxs[i]);
      PlainSetValue(st, st.ctxs[i].entries[it.val]);
    } else {
      var r := LookupEnv(w, refs, it.val);
      if r.Ok? {
        LookupEnvIsPlain(w, refs, it.val);
        PlainSetValue(st, r.value);
      }
    }
  }

  lemma LookupEnvIsPlain(w: World, refs: set<string>, name: string)
    requires IncludesAgree(w)
    ensures var r := LookupEnv(w, refs, name); r.Ok? ==> Erase(r.value) == r.value
    decreases |w.vars.Keys - refs|, 0, 0
  {
    if name !in refs && name in w.vars {
      FewerVariables(w, refs, name);
      var text := PKEY + "=" + w.vars[name];
      PlainProcessItems(w, refs + {name}, Root, false, Lex(text));
      var r := ProcessItems(w, refs + {name}, false, Root, false, Lex(text));
      if r.Ok? && r.value.ctxs != [] {
        assert EraseCtxs(r.value.ctxs)[0] == EraseCtx(r.value.ctxs[0]);
      }
    }
  }

  lemma {:induction false} PlainProcessItems(w: World, refs: set<string>, st: Stacks, dangling: bool, items: seq<Item>)
    requires Plain(st) && IncludesAgree(w)
    ensures var r := ProcessItems(w, refs, false, st, dangling, items); r.Ok? ==> Plain(r.value)
    decreases |w.vars.Keys - refs|, 2, |items|
  {
    if items != [] && !items[0].typ.EofItem? {
      PlainProcessItem(w, refs, st, items[0]);
      var r := ProcessItem(w, refs, false, st, items[0]);
      if r.Ok? {
        PlainProcessItems(w, refs, r.value, items[0].typ.KeyItem? && items[0].val != "}", items[1..]);
      }
    }
  }

  // ---------- Whole runs ----------

  /** On every sequence of items the two modes fail together, panic together or
      end with stacks that mirror. */
  lemma {:induction false} ProcessItemsAgrees(w: World, refs: set<string>, p: Stacks, q: Stacks, dangling: bool, items: seq<Item>)
    requires Mirrors(p, q) && IncludesAgree(w)
    ensures Agree(ProcessItems(w, refs, true, p, dangling, items), ProcessItems(w, refs, false, q, dangling, items))
    decreases |items|
  {
    if items != [] && !items[0].typ.EofItem? {
      ProcessItemAgrees(w, refs, p, q, items[0]);
      var r, s := ProcessItem(w, refs, true, p, items[0]), ProcessItem(w, refs, false, q, items[0]);
      if r.Ok? {
        ProcessItemsAgrees(w, refs, r.value, s.value, items[0].typ.KeyItem? && items[0].val != "}", items[1..]);
      }
    }
  }

  /** Pedantic parsing of a text means what plain parsing of it means. */
  lemma PedanticMeansPlain(w: World, text: string)
    requires IncludesAgree(w)
    ensures match Parse(w, true, text)
            case Ok(m) => Parse(w, false, text) == Ok(EraseMap(m))
            case Err => Parse(w, false, text).Err?
            case Panic => false
  {
    assert EraseCtxs(Root.ctxs) == Root.ctxs;
    ProcessItemsAgrees(w, {}, Root, Root, false, Lex(text));
    ParseTextIsSafe(w, {}, true, text);
    var r, s := ProcessItems(w, {}, true, Root, false, Lex(text)), ProcessItems(w, {}, false, Root, false, Lex(text));
    if r.Ok? && r.value.ctxs != [] {
      assert EraseCtxs(r.value.ctxs)[0] == EraseCtx(r.value.ctxs[0]);
    }
  }
}
