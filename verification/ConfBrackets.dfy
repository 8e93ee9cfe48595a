/** Arrays written without a comma after the last element. */
module ConfBrackets {
  import opened Ascii
  import opened ConfLexer
  import opened ConfParser
  import opened ConfRebuild
  import opened ConfText

  /** The elements with commas between them only. */
  function JoinAll(es: seq<Tree>): string {
    if es == [] then "" else if |es| == 1 then Render(es[0]) else Render(es[0]) + ("," + JoinAll(es[1..]))
  }

  /** The last element is a number without a sign or a size. */
  predicate EndsInDigits(es: seq<Tree>) { es != [] && JoinsBracket(es[|es| - 1]) }

  // ---------- Elements before a bracket ----------

  lemma CloseAfterElement(lx: Lexer, ret: State, k: Stack, rest: string) returns (lx': Lexer)
    requires At(lx, ArrayValueEnd, On(ret, k), "]" + rest)
    ensures At(lx', ret, k, rest) && Sends(lx, [Bare(ArrayEndItem, "")], lx')
  {
    hide Good, Run, Sends, Next, Peeked, Ignore, Keeps, RoleOf, Rank;
    UnreadNext(lx, ']', rest);
    var end := OneStep(lx);
    lx' := EndArray(end, ret, k, rest);
    SendsThen(lx, [], end, [Bare(ArrayEndItem, "")], lx');
    assert [] + [Bare(ArrayEndItem, "")] == [Bare(ArrayEndItem, "")];
  }

  /** The last element and the bracket after it. */
  lemma ReadLast(lx: Lexer, ret: State, k: Stack, t: Tree, rest: string) returns (lx': Lexer)
    requires At(lx, ArrayValue, On(ret, k), Render(t) + ("]" + rest)) && TreeOk(t) && lx.start == lx.pos
    requires !JoinsBracket(t)
    ensures At(lx', ret, k, rest) && Sends(lx, Flatten(t) + [Bare(ArrayEndItem, "")], lx')
  {
    hide At, Sends, Render, Flatten, TreeOk, StartsValue;
    Starts(t);
    var text := Render(t);
    assert text + ("]" + rest) == [text[0]] + (text[1..] + ("]" + rest));
    var a := EnterElement(lx, On(ret, k), text[0], text[1..] + ("]" + rest));
    var b := ReadValue(a, ArrayValueEnd, On(ret, k), t, "]" + rest);
    lx' := CloseAfterElement(b, ret, k, rest);
    SendsThen(lx, [], a, Flatten(t), b);
    SendsThen(lx, [] + Flatten(t), b, [Bare(ArrayEndItem, "")], lx');
    assert [] + Flatten(t) == Flatten(t);
  }

  /** The elements, and the bracket after them, when the last is no such number. */
  lemma {:induction false} ReadJoined(lx: Lexer, ret: State, k: Stack, es: seq<Tree>, rest: string) returns (lx': Lexer)
    requires At(lx, ArrayValue, On(ret, k), JoinAll(es) + ("]" + rest)) && TreeOk(Arr(es)) && lx.start == lx.pos
    requires !EndsInDigits(es)
    ensures At(lx', ret, k, rest) && Sends(lx, FlattenAll(es) + [Bare(ArrayEndItem, "")], lx')
    decreases |es|
  {
    hide At, Sends, Render, Flatten;
    var close := [Bare(ArrayEndItem, "")];
    if es == [] {
      assert JoinAll(es) + ("]" + rest) == "]" + rest;
      lx' := CloseArray(lx, ret, k, rest);
      assert FlattenAll(es) + close == close;
    } else if |es| == 1 {
      lx' := ReadLast(lx, ret, k, es[0], rest);
      assert es[1..] == [] && FlattenAll(es) == Flatten(es[0]) + [];
      assert FlattenAll(es) == Flatten(es[0]);
    } else {
      var tail := JoinAll(es[1..]) + ("]" + rest);
      assert JoinAll(es) + ("]" + rest) == Render(es[0]) + ("," + tail);
      var a := ReadElement(lx, On(ret, k), es[0], tail);
      lx' := ReadJoined(a, ret, k, es[1..], rest);
      SendsThen(lx, Flatten(es[0]), a, FlattenAll(es[1..]) + close, lx');
      assert Flatten(es[0]) + (FlattenAll(es[1..]) + close) == FlattenAll(es) + close;
    }
  }

  // ---------- A number before a bracket ----------

  lemma BracketInNumber(lx: Lexer, k: Stack, rest: string) returns (lx': Lexer)
    requires At(lx, Number, k, "]" + rest)
    ensures At(lx', RawString, k, rest) && lx'.start == lx.start && lx'.input == lx.input && lx'.pos == lx.pos + 1
    ensures Sends(lx, [], lx') && lx' == Step(lx).lx
  {
    hide Good, Run, Sends, Next, Peeked, Ignore, Keeps, RoleOf, Rank, Emitted, Join, SendValue;
    UnreadNext(lx, ']', rest);
    lx' := OneStep(lx);
  }

  /** A closing bracket right after plain digits does not close the array: it is read
      as part of an unquoted string that began with the digits. */
  lemma BracketJoinsNumber(lx: Lexer, k: Stack, ds: string, rest: string) returns (lx': Lexer)
    requires At(lx, Value, k, ds + ("]" + rest)) && lx.start == lx.pos
    requires ds != "" && forall i :: 0 <= i < |ds| ==> IsDigit(ds[i])
    ensures At(lx', RawString, k, rest) && lx'.start <= lx'.pos <= |lx'.input|
    ensures lx'.input[lx'.start..lx'.pos] == ds + "]" && Sends(lx, [], lx')
  {
    hide At, Sends;
    var tail := ds[1..] + ("]" + rest);
    assert ds + ("]" + rest) == [ds[0]] + tail;
    var a := EnterNumber(lx, k, ds[0], tail);
    var b := FirstDigit(a, false, k, ds[0], tail);
    var c := MoreDigits(b, Number, k, ds[1..], "]" + rest);
    lx' := BracketInNumber(c, k, rest);
    assert ds + ("]" + rest) == (ds + "]") + rest;
    TextRead(lx, Value, k, ds + "]", rest);
    SendsThen(lx, [], a, [], b);
    SendsThen(lx, [], b, [], c);
    SendsThen(lx, [], c, [], lx');
  }

  /** What a number is sent as when a bracket comes right after it. */
  function BeforeBracket(s: State): ItemType {
    if s.NegNumber? then IntegerItem else if s.Float? then FloatItem else StringItem
  }

  lemma SignedEnds(lx: Lexer)
    requires Good(lx) && (lx.state.NegNumber? || lx.state.Float?) && Rune(lx) == ']' && RoleOf(lx.state).ScalarRole?
    ensures Step(lx) == SendValue(lx, Ignore(Peeked(lx)), Emitted(Peeked(lx), BeforeBracket(lx.state)))
  {
    hide Good, Keeps, RoleOf, Rank, Next, Peeked, Ignore, Emitted, SendValue;
  }

  /** A signed number and a fraction end before the bracket. */
  lemma EndSigned(lx: Lexer, ret: State, k: Stack, rest: string) returns (lx': Lexer)
    requires At(lx, lx.state, On(ret, k), "]" + rest) && (lx.state.NegNumber? || lx.state.Float?)
    ensures At(lx', ret, k, "]" + rest) && Sends(lx, [Bare(BeforeBracket(lx.state), lx.input[lx.start..lx.pos])], lx')
  {
    hide Good, Run, Sends, Next, Peeked, Ignore, Keeps, RoleOf, Rank;
    UnreadNext(lx, ']', rest);
    UnreadPeeked(lx);
    assert Join([]) + lx.input[lx.start..lx.pos] == lx.input[lx.start..lx.pos];
    ScalarState(lx.state);
    SignedEnds(lx);
    hide Step;
    lx' := OneStep(lx);
  }

  /** A suffix before the bracket makes the number text. */
  lemma SuffixIsText(lx: Lexer, k: Stack, rest: string) returns (lx': Lexer)
    requires At(lx, ConvenientNumber, k, "]" + rest)
    ensures At(lx', RawString, k, "]" + rest) && Sends(lx, [], lx')
    ensures lx'.start == lx.start && lx'.input == lx.input && lx'.pos == lx.pos
  {
    hide Good, Run, Sends, Next, Ignore, Keeps, RoleOf, Rank, Emitted, Join, SendValue;
    UnreadNext(lx, ']', rest);
    UnreadPeeked(lx);
    lx' := OneStep(lx);
  }

  predicate Numeric(text: string) { text != "" && (IsDigit(text[0]) || text[0] == '-') }

  lemma NumericIsNoBool(text: string)
    requires Numeric(text)
    ensures !IsBool(text)
  {
    assert Lower(text)[0] == text[0];
  }

  lemma TextEnds(lx: Lexer, text: string)
    requires Positioned(lx) && Good(lx) && lx.state.RawString? && Rune(lx) == ']' && lx.parts == [] && RoleOf(lx.state).ScalarRole?
    requires lx.input[lx.start..lx.pos] == text && Numeric(text)
    ensures Step(lx) == SendValue(lx, Ignore(Peeked(lx)).(parts := []), Emitted(Peeked(lx), StringItem))
  {
    hide Good, Keeps, RoleOf, Rank, Next, Ignore, Emitted, SendValue, IsBool;
    NumericIsNoBool(text);
    assert text[0] == lx.input[lx.start];
  }

  lemma EndText(lx: Lexer, ret: State, k: Stack, text: string, rest: string) returns (lx': Lexer)
    requires At(lx, RawString, On(ret, k), "]" + rest) && lx.input[lx.start..lx.pos] == text && Numeric(text)
    ensures At(lx', ret, k, "]" + rest) && Sends(lx, [Bare(StringItem, text)], lx')
  {
    hide Good, Run, Sends, Next, Peeked, Ignore, Keeps, RoleOf, Rank, IsBool;
    UnreadNext(lx, ']', rest);
    UnreadPeeked(lx);
    assert Join([]) + text == text;
    ScalarState(lx.state);
    TextEnds(lx, text);
    hide Step;
    lx' := OneStep(lx);
  }

  /** Digits without a sign are the only numbers that a bracket joins. After all others
      it is left to close the array; but a number with a suffix is then sent as text,
      not as an integer. */
  lemma OnlyDigitsJoin(lx: Lexer, ret: State, k: Stack, rest: string) returns (lx': Lexer)
    requires At(lx, lx.state, On(ret, k), "]" + rest) && Numeric(lx.input[lx.start..lx.pos])
    requires lx.state.Number? || lx.state.NegNumber? || lx.state.Float? || lx.state.ConvenientNumber?
    ensures lx.state.Number? ==> At(lx', RawString, On(ret, k), rest) && Sends(lx, [], lx')
    ensures !lx.state.Number? ==> At(lx', ret, k, "]" + rest)
    ensures !lx.state.Number? ==> Sends(lx, [Bare(BeforeBracket(lx.state), lx.input[lx.start..lx.pos])], lx')
  {
    var text := lx.input[lx.start..lx.pos];
    hide At, Sends, Numeric;
    if lx.state.Number? {
      lx' := BracketInNumber(lx, On(ret, k), rest);
    } else if lx.state.ConvenientNumber? {
      var raw := SuffixIsText(lx, On(ret, k), rest);
      lx' := EndText(raw, ret, k, text, rest);
      SendsThen(lx, [], raw, [Bare(StringItem, text)], lx');
      assert [] + [Bare(StringItem, text)] == [Bare(StringItem, text)];
    } else {
      lx' := EndSigned(lx, ret, k, rest);
    }
  }

  predicate StaysInString(s: Stepped) {
    if s.items != [] then !s.items[0].typ.IntegerItem? else StringState(s.lx.state)
  }

  lemma RawStep(lx: Lexer)
    requires Good(lx) && lx.state.RawString?
    ensures StaysInString(Step(lx))
  {
    hide Good, Fits, Next, Peeked, Ignore, Keeps, RoleOf, Rank, Join;
  }

  lemma QuotedStep(lx: Lexer)
    requires Good(lx) && lx.state.DubQuotedString?
    ensures StaysInString(Step(lx))
  {
    hide Good, Fits, Next, Peeked, Ignore, Keeps, RoleOf, Rank, Join;
  }

  lemma EscapeStep(lx: Lexer)
    requires Good(lx) && (lx.state.StringEscape? || lx.state.StringBinary?)
    ensures StaysInString(Step(lx))
  {
    hide Fits, Next, Peeked, Ignore, Keeps, RoleOf, Rank, Join;
  }

  /** Inside a string, quoted or not, no integer comes next. */
  lemma StringStep(lx: Lexer)
    requires Good(lx) && StringState(lx.state)
    ensures StaysInString(Step(lx))
  {
    hide Good, Step, StaysInString;
    if lx.state.RawString? {
      RawStep(lx);
    } else if lx.state.DubQuotedString? {
      QuotedStep(lx);
    } else {
      EscapeStep(lx);
    }
  }

  lemma {:induction false} StringNeverInteger(lx: Lexer)
    requires Good(lx) && StringState(lx.state)
    ensures Run(lx) != [] && !Run(lx)[0].typ.IntegerItem?
    decreases |lx.input| - lx.pos, Rank(lx.state, AtEnd(lx))
  {
    hide Good, Step, Keeps, Rank, Ended;
    var s := Step(lx);
    RunShrinks(lx, s);
    StringStep(lx);
    if s.items == [] { StringNeverInteger(s.lx); }
  }

  /** A number without a sign and the bracket after it: a string begins. */
  lemma ReadDigitsThenBracket(lx: Lexer, k: Stack, n: nat, rest: string) returns (lx': Lexer)
    requires At(lx, ArrayValue, k, NatNumeral(n) + ("]" + rest)) && lx.start == lx.pos
    ensures Good(lx') && StringState(lx'.state) && Sends(lx, [], lx')
  {
    var ds := NatNumeral(n);
    hide Sends, NatNumeral, Good;
    assert ds + ("]" + rest) == [ds[0]] + (ds[1..] + ("]" + rest));
    var a := EnterElement(lx, k, ds[0], ds[1..] + ("]" + rest));
    lx' := BracketJoinsNumber(a, On(ArrayValueEnd, k), ds, rest);
    SendsThen(lx, [], a, [], lx');
  }

  /** A size and the bracket after it: it turns out to be a string. */
  lemma ReadSizeThenBracket(lx: Lexer, k: Stack, n: int, letter: char, ending: string, rest: string) returns (lx': Lexer)
    requires At(lx, ArrayValue, k, Numeral(n) + ([letter] + ending) + ("]" + rest)) && lx.start == lx.pos
    requires SizeLetter(letter) && SizeEnding(ending)
    ensures Good(lx') && StringState(lx'.state) && Sends(lx, [], lx')
  {
    EndingRunes(ending);
    var text := Numeral(n) + ([letter] + ending);
    assert StartsValue(text[0]) by { assert text[0] == Numeral(n)[0]; }
    hide Sends, Numeral, Good, SizeLetter, SizeEnding, StartsValue;
    assert text + ("]" + rest) == [text[0]] + (text[1..] + ("]" + rest));
    var a := EnterElement(lx, k, text[0], text[1..] + ("]" + rest));
    var b := ReadSize(a, On(ArrayValueEnd, k), n, letter, ending, "]" + rest);
    lx' := SuffixIsText(b, On(ArrayValueEnd, k), rest);
    SendsThen(lx, [], a, [], b);
    SendsThen(lx, [], b, [], lx');
  }

  /** The elements up to a last number of this kind: the array is still open and a
      string has begun. */
  lemma {:induction false} ReadUpToDigits(lx: Lexer, k: Stack, es: seq<Tree>, rest: string) returns (lx': Lexer)
    requires At(lx, ArrayValue, k, JoinAll(es) + ("]" + rest)) && TreeOk(Arr(es)) && lx.start == lx.pos
    requires EndsInDigits(es)
    ensures Good(lx') && StringState(lx'.state) && Sends(lx, FlattenAll(es[..|es| - 1]), lx')
    decreases |es|
  {
    hide At, Sends, Flatten, NatNumeral, Good, SizeLetter, SizeEnding;
    if |es| == 1 {
      if es[0].Num? {
        lx' := ReadDigitsThenBracket(lx, k, es[0].n, rest);
      } else {
        lx' := ReadSizeThenBracket(lx, k, es[0].n, es[0].letter, es[0].ending, rest);
      }
      assert es[..0] == [];
    } else {
      lx' := ReadElementAndRest(lx, k, es, rest);
    }
  }

  lemma ReadElementAndRest(lx: Lexer, k: Stack, es: seq<Tree>, rest: string) returns (lx': Lexer)
    requires At(lx, ArrayValue, k, JoinAll(es) + ("]" + rest)) && TreeOk(Arr(es)) && lx.start == lx.pos
    requires EndsInDigits(es) && |es| > 1
    ensures Good(lx') && StringState(lx'.state) && Sends(lx, FlattenAll(es[..|es| - 1]), lx')
    decreases |es|, 0
  {
    hide At, Sends, Flatten, Render, Good, JoinsBracket;
    var tail := JoinAll(es[1..]) + ("]" + rest);
    assert JoinAll(es) + ("]" + rest) == Render(es[0]) + ("," + tail);
    var a := ReadElement(lx, k, es[0], tail);
    lx' := ReadUpToDigits(a, k, es[1..], rest);
    SendsThen(lx, Flatten(es[0]), a, FlattenAll(es[1..][..|es| - 2]), lx');
    assert es[..|es| - 1][1..] == es[1..][..|es| - 2];
  }

  lemma {:induction false} FlattenFront(es: seq<Tree>)
    requires es != []
    ensures FlattenAll(es) == FlattenAll(es[..|es| - 1]) + Flatten(es[|es| - 1])
    decreases |es|
  {
    hide Flatten;
    if |es| == 1 {
      assert es[1..] == [] && es[..0] == [];
    } else {
      FlattenFront(es[1..]);
      assert es[..|es| - 1][1..] == es[1..][..|es| - 2];
    }
  }

  /** An array written without a comma after its last element is read as its items
      exactly when the last element is neither a number without a sign nor a size,
      whatever follows the array. */
  lemma BracketCloses(lx: Lexer, ret: State, k: Stack, es: seq<Tree>, rest: string)
    requires At(lx, Value, On(ret, k), "[" + (JoinAll(es) + ("]" + rest))) && TreeOk(Arr(es))
    ensures Flatten(Arr(es)) <= Bared(Run(lx)) <==> !EndsInDigits(es)
  {
    hide At, Sends, Render, JoinAll, TreeOk, FlattenAll;
    var open := [Bare(ArrayStartItem, "")];
    var a := OpenArray(lx, On(ret, k), JoinAll(es) + ("]" + rest));
    if !EndsInDigits(es) {
      var b := ReadJoined(a, ret, k, es, rest);
      var items := FlattenAll(es) + [Bare(ArrayEndItem, "")];
      SendsThen(lx, open, a, items, b);
      assert open + items == Flatten(Arr(es));
      SendsPrefix(lx, Flatten(Arr(es)), b);
    } else {
      var b := ReadUpToDigits(a, On(ret, k), es, rest);
      SendsThen(lx, open, a, FlattenAll(es[..|es| - 1]), b);
      FlattenFront(es);
      StringNeverInteger(b);
      NotAnInteger(lx, open + FlattenAll(es[..|es| - 1]), b, Flatten(Arr(es)));
    }
  }

  lemma SendsPrefix(lx: Lexer, sent: seq<Item>, lx': Lexer)
    requires Sends(lx, sent, lx')
    ensures Good(lx) && sent <= Bared(Run(lx))
  {
    hide Run, Bared, Good;
  }

  lemma NotAnInteger(lx: Lexer, sent: seq<Item>, lx': Lexer, items: seq<Item>)
    requires Sends(lx, sent, lx') && Good(lx') && Run(lx') != [] && !Run(lx')[0].typ.IntegerItem?
    requires |sent| < |items| && items[|sent|].typ.IntegerItem?
    ensures Good(lx) && !(items <= Bared(Run(lx)))
  {
    hide Run, Good;
    assert Bared(Run(lx))[|sent|] == Bared(Run(lx'))[0];
  }
}
