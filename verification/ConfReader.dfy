/** The parser object: it pulls items from its lexer and changes its stacks in
    place. Its methods are proved against the functions of `ConfParser`, and
    none of the source's panics can be reached. */
module ConfReader {
  import opened Ascii
  import opened ConfLexer
  import opened ConfParser
  import opened Int64

  class Parser {
    var lx: Lexer
    var ctxs: seq<Context>
    var keys: seq<string>
    var ikeys: seq<Item>
    const pedantic: bool
    const w: World
    const refs: set<string>  // environment variables being parsed

    ghost function View(): Stacks
      reads this
    {
      Stacks(ctxs, keys, ikeys)
    }

    constructor (w: World, refs: set<string>, pedantic: bool, text: string)
      ensures this.w == w && this.refs == refs && this.pedantic == pedantic
      ensures lx == Begin(text) && View() == Stacks([], [], [])
    {
      this.w, this.refs, this.pedantic := w, refs, pedantic;
      lx := Begin(text);
      ctxs, keys, ikeys := [], [], [];
    }

    /** Run the lexer until it sends an item. */
    method NextItem() returns (it: Item)
      requires Good(lx) && !lx.state.Done?
      modifies this`lx
      ensures Good(lx) && [it] + Run(lx) == old(Run(lx))
      ensures lx.state.Done? <==> IsLast(it)
    {
      hide Good, Step, Keeps;
      while true
        invariant Good(lx) && !lx.state.Done? && Run(lx) == old(Run(lx))
        decreases |lx.input| - lx.pos, Rank(lx.state, AtEnd(lx))
      {
        var s := Step(lx);
        RunShrinks(lx, s);
        lx := s.lx;
        if s.items != [] {
          return s.items[0];
        }
      }
    }

    method PushContext(c: Context)
      modifies this`ctxs
      ensures ctxs == old(ctxs) + [c]
    {
      ctxs := ctxs + [c];
    }

    /** The panics of the source are this method's precondition. */
    method PopContext() returns (last: Context)
      requires 2 <= |ctxs|
      modifies this`ctxs
      ensures old(ctxs) == ctxs + [last]
    {
      var li := |ctxs| - 1;
      last := ctxs[li];
      ctxs := ctxs[..li];
    }

    method PopKey() returns (last: string)
      requires keys != []
      modifies this`keys
      ensures old(keys) == keys + [last]
    {
      var li := |keys| - 1;
      last := keys[li];
      keys := keys[..li];
    }

    method PopItemKey() returns (last: Item)
      requires ikeys != []
      modifies this`ikeys
      ensures old(ikeys) == ikeys + [last]
    {
      var li := |ikeys| - 1;
      last := ikeys[li];
      ikeys := ikeys[..li];
    }

    /** Put a value into the current context. */
    method SetValue(v: Value)
      requires !ConfParser.SetValue(pedantic, View(), v).Panic?
      modifies this`ctxs, this`keys, this`ikeys
      ensures ConfParser.SetValue(pedantic, old(View()), v) == Ok(View())
    {
      if ctxs == [] { return; }
      var n := |ctxs| - 1;
      match ctxs[n] {
        case ArrayCtx(a) =>
          ctxs := ctxs[n := ArrayCtx(a + [v])];
        case MapCtx(m) =>
          var key := PopKey();
          if !pedantic {
            ctxs := ctxs[n := MapCtx(m[key := v])];
          } else if v.Token? {
            var at := PopItemKey();
            ctxs := ctxs[n := MapCtx(m[key := v.(item := v.item.(line := at.line, pos := at.pos))])];
          }
      }
    }

    /** The nearest open map that defines `name`, from the top of the stack
        down; -1 if there is none. */
    method FindScope(name: string) returns (i: int)
      ensures i == Scope(ctxs, name)
    {
      i := |ctxs| - 1;
      while 0 <= i
        invariant -1 <= i < |ctxs|
        invariant Scope(ctxs, name) == Scope(ctxs[..i + 1], name)
      {
        assert ctxs[..i + 1][..i] == ctxs[..i];
        if ctxs[i].MapCtx? && name in ctxs[i].entries {
          return;
        }
        i := i - 1;
      }
    }

    /** Mark a looked-up token as used, in place. */
    method MarkUsed(i: nat, name: string)
      requires i < |ctxs| && ctxs[i].MapCtx? && name in ctxs[i].entries && ctxs[i].entries[name].Token?
      modifies this`ctxs
      ensures ctxs == ConfParser.MarkUsed(old(ctxs), i, name)
    {
      var m := ctxs[i].entries;
      ctxs := ctxs[i := MapCtx(m[name := m[name].(used := true)])];
    }

    method SetIncluded(pairs: seq<(string, Value)>)
      requires !ConfParser.SetIncluded(pedantic, View(), pairs).Panic?
      modifies this`ctxs, this`keys, this`ikeys
      ensures ConfParser.SetIncluded(pedantic, old(View()), pairs) == Ok(View())
    {
      ghost var goal := ConfParser.SetIncluded(pedantic, View(), pairs);
      for i := 0 to |pairs|
        invariant ConfParser.SetIncluded(pedantic, View(), pairs[i..]) == goal
      {
        assert pairs[i..][1..] == pairs[i + 1..];
        var (k, v) := pairs[i];
        keys := keys + [k];
        if pedantic && v.Token? {
          ikeys := ikeys + [v.item];
        }
        SetValue(v);
      }
    }

    /** Parse an environment variable on its own, in plain mode. */
    method LookupEnv(name: string) returns (r: Outcome<Value>)
      ensures r == ConfParser.LookupEnv(w, refs, name)
      decreases |w.vars.Keys - refs|, 0
    {
      if name in refs || name !in w.vars {
        return Err;
      }
      FewerVariables(w, refs, name);
      var sub := new Parser(w, refs + {name}, false, PKEY + "=" + w.vars[name]);
      var m := sub.Parse(PKEY + "=" + w.vars[name]);
      r := if m.Ok? then (if PKEY in m.value then Ok(m.value[PKEY]) else Err) else Err;
    }

    method ProcessVariable(it: Item) returns (ok: bool)
      requires !ConfParser.ProcessVariable(w, refs, pedantic, View(), it).Panic?
      modifies this`ctxs, this`keys, this`ikeys
      ensures ConfParser.ProcessVariable(w, refs, pedantic, old(View()), it) == (if ok then Ok(View()) else Err)
      decreases |w.vars.Keys - refs|, 1
    {
      var i := FindScope(it.val);
      var v;
      if IsBcrypt(it.val) {
        i, v := -1, Text("$" + it.val);
      } else if i >= 0 {
        v := ctxs[i].entries[it.val];
      } else {
        var found := LookupEnv(it.val);
        if !found.Ok? {
          return false;
        }
        v := found.value;
      }
      if !pedantic {
        SetValue(v);
      } else {
        if i >= 0 && v.Token? {
          MarkUsed(i, it.val);
        }
        SetValue(Token(it, if v.Token? then v.value else v, false));
      }
      ok := true;
    }

    /** Set a value that item `it` denotes. */
    method SetItem(it: Item, v: Value)
      requires !ConfParser.SetItem(pedantic, View(), it, v).Panic?
      modifies this`ctxs, this`keys, this`ikeys
      ensures ConfParser.SetItem(pedantic, old(View()), it, v) == Ok(View())
    {
      SetValue(if pedantic then Token(it, v, false) else v);
    }

    /** Act on one item; false is an error. */
    method ProcessItem(it: Item) returns (ok: bool)
      requires !ConfParser.ProcessItem(w, refs, pedantic, View(), it).Panic?
      modifies this`ctxs, this`keys, this`ikeys
      ensures ConfParser.ProcessItem(w, refs, pedantic, old(View()), it) == (if ok then Ok(View()) else Err)
      decreases |w.vars.Keys - refs|, 2
    {
      hide ConfParser.SetValue, ConfParser.SetIncluded, ConfParser.ProcessVariable;
      ok := true;
      match it.typ {
        case ErrorItem => ok := false;
        case KeyItem =>
          keys := keys + [it.val];
          if pedantic { ikeys := ikeys + [it]; }
        case MapStartItem => PushContext(MapCtx(map[]));
        case ArrayStartItem => PushContext(ArrayCtx([]));
        case MapEndItem => CloseContext(it);
        case ArrayEndItem => CloseContext(it);
        case StringItem => SetItem(it, Text(it.val));
        case IntegerItem => ok := ProcessInteger(it);
        case FloatItem =>
          if w.floatOk(it.val) { SetItem(it, Decimal(it.val)); } else { ok := false; }
        case BoolItem =>
          var s := Lower(it.val);
          if s == "true" || s == "yes" || s == "on" {
            SetItem(it, Flag(true));
          } else if s == "false" || s == "no" || s == "off" {
            SetItem(it, Flag(false));
          } else {
            ok := false;
          }
        case DatetimeItem =>
          if w.dateOk(it.val) { SetItem(it, Moment(it.val)); } else { ok := false; }
        case VariableItem => ok := ProcessVariable(it);
        case IncludeItem =>
          var m := w.included(it.val, pedantic);
          if m.Ok? { SetIncluded(m.value); } else { ok := false; }
        case EofItem =>
        case TextItem =>
        case CommentStartItem =>
      }
    }

    method CloseContext(it: Item)
      requires !ConfParser.CloseContext(pedantic, View(), it).Panic?
      modifies this`ctxs, this`keys, this`ikeys
      ensures ConfParser.CloseContext(pedantic, old(View()), it) == Ok(View())
    {
      hide ConfParser.SetValue;
      var last := PopContext();
      assert ctxs == old(ctxs)[..|ctxs|];
      SetItem(it, ContextValue(last));
    }

    /** An integer with an optional size suffix. */
    method ProcessInteger(it: Item) returns (ok: bool)
      requires !ConfParser.SetInteger(pedantic, View(), it).Panic?
      modifies this`ctxs, this`keys, this`ikeys
      ensures ConfParser.SetInteger(pedantic, old(View()), it) == (if ok then Ok(View()) else Err)
    {
      var lastDigit := 0;
      while lastDigit < |it.val| && (IsDigit(it.val[lastDigit]) || it.val[lastDigit] == '-')
        invariant lastDigit <= |it.val|
        invariant NumberPrefix(it.val) == lastDigit + NumberPrefix(it.val[lastDigit..])
      {
        assert it.val[lastDigit..][1..] == it.val[lastDigit + 1..];
        lastDigit := lastDigit + 1;
      }
      hide ConfParser.SetValue;
      var num := ParseInt64(it.val[..lastDigit]);
      if !num.Int? {
        return false;
      }
      var m := Multiplier(Lower(Trim(it.val[lastDigit..])));
      if m.Ok? {
        SetItem(it, Integer(Wrap64(num.value * m.value)));
      }
      ok := true;
    }

    /** Parse the whole text. Every text gives a mapping or an error, with no
        panic on the way. */
    method Parse(text: string) returns (r: Outcome<map<string, Value>>)
      requires lx == Begin(text) && View() == Stacks([], [], [])
      modifies this
      ensures r == ParseText(w, refs, pedantic, text) && !r.Panic?
      decreases |w.vars.Keys - refs|, 3
    {
      hide Good, Run, ConfParser.ProcessItem;
      ParseTextIsSafe(w, refs, pedantic, text);
      BeginIsGood(text);
      PushContext(MapCtx(map[]));
      assert View() == Root;
      ghost var goal := ProcessItems(w, refs, pedantic, Root, false, Lex(text));
      var dangling := false;
      while true
        invariant Good(lx) && !lx.state.Done?
        invariant ProcessItems(w, refs, pedantic, View(), dangling, Run(lx)) == goal
        decreases |Run(lx)|
      {
        ghost var items := Run(lx);
        var it := NextItem();
        assert items[1..] == Run(lx);
        if it.typ.EofItem? {
          if dangling {
            return Err;
          }
          return Ok(ctxs[0].entries);
        }
        dangling := it.typ.KeyItem? && it.val != "}";
        ErrorStops(w, refs, pedantic, View(), it);
        var ok := ProcessItem(it);
        if !ok {
          return Err;
        }
      }
    }
  }

  lemma BeginIsGood(text: string)
    ensures Good(Begin(text)) && Lex(text) == Run(Begin(text)) && Root == Stacks([MapCtx(map[])], [], [])
  {
  }

  lemma ErrorStops(w: World, refs: set<string>, pedantic: bool, st: Stacks, it: Item)
    ensures it.typ.ErrorItem? ==> ConfParser.ProcessItem(w, refs, pedantic, st, it).Err?
  {
  }
}
