/** The configuration lexer: a stack of state functions over a text. Each state
    function of the source is one function here; a step takes the lexer in that
    state to its next state and to the items it sends. Runes are `char`s of
    width one, so UTF-8 decoding is not part of this model. */
module ConfLexer {
  import opened Ascii

  const EOF := '\0'

  // The text of the error sent when there is no state to return to. The texts
  // of all other errors are left out of this model.
  const BUG := "BUG in lexer: no states to pop."

  datatype ItemType =
    | ErrorItem | EofItem | KeyItem | TextItem | StringItem | BoolItem | IntegerItem
    | FloatItem | DatetimeItem | ArrayStartItem | ArrayEndItem | MapStartItem
    | MapEndItem | CommentStartItem | VariableItem | IncludeItem

  datatype Item = Item(typ: ItemType, val: string, line: int, pos: int)

  datatype State =
    | Top | TopValueEnd | BlockStart | BlockValueEnd | BlockEnd
    | KeyStart | DubQuotedKey | QuotedKey | Key | KeyEnd
    | IncludeStart | Include | IncludeQuotedString | IncludeDubQuotedString | IncludeString
    | Value
    | ArrayValue | ArrayValueEnd | ArrayEnd
    | MapKeyStart | MapQuotedKey | MapDubQuotedKey | MapKey | MapKeyEnd | MapValue | MapValueEnd | MapEnd
    | QuotedString | DubQuotedString | RawString | Block | StringEscape | StringBinary
    | NumberStart | Number | ConvenientNumber | DateAfterYear | NegNumberStart | NegNumber
    | FloatStart | Float | IPAddr
    | CommentStart | Comment
    | Skip(to: State)
    | Done

  datatype Stack = Empty | On(top: State, below: Stack)

  datatype Lexer = Lexer(input: string, start: nat, pos: nat, width: nat,
                         line: int, lstart: int, ilstart: int,
                         state: State, stack: Stack,
                         parts: seq<string>, stringState: State)

  /** One step: the lexer after it and the items it sent. */
  datatype Stepped = Stepped(lx: Lexer, items: seq<Item>)

  // ---------- Runes ----------

  predicate IsWhitespace(r: char) { r == '\t' || r == ' ' }
  predicate IsNL(r: char) { r == '\n' || r == '\r' }
  predicate IsKeySeparator(r: char) { r == '=' || r == ':' }
  predicate IsNumberSuffix(r: char) {
    || r == 'k' || r == 'K' || r == 'm' || r == 'M' || r == 'g' || r == 'G'
    || r == 't' || r == 'T' || r == 'p' || r == 'P' || r == 'e' || r == 'E'
  }
  predicate IsHex(r: char) { IsDigit(r) || 'a' <= r <= 'f' || 'A' <= r <= 'F' }

  function HexValue(r: char): int
    requires IsHex(r)
  {
    if IsDigit(r) then (r - '0') as int
    else if 'a' <= r then (r - 'a') as int + 10
    else (r - 'A') as int + 10
  }

  // ---------- Lexer primitives ----------

  predicate Positioned(lx: Lexer) {
    lx.start <= lx.pos <= |lx.input|
  }

  /** `n` is `lx` read on by zero or more runes: only its position moved. */
  predicate Onward(lx: Lexer, n: Lexer) {
    && n.input == lx.input && n.stack == lx.stack && n.state == lx.state
    && lx.pos <= n.pos && Positioned(n)
  }

  /** The rune that `Next` consumes. */
  function Rune(lx: Lexer): char {
    if lx.pos < |lx.input| then lx.input[lx.pos] else EOF
  }

  predicate AtEnd(lx: Lexer) { |lx.input| <= lx.pos }

  function Next(lx: Lexer): (n: Lexer)
    ensures n.pos == (if AtEnd(lx) then lx.pos else lx.pos + 1) && n.width == n.pos - lx.pos
    ensures n.start == lx.start && n.parts == lx.parts && n.stringState == lx.stringState
    ensures n.input == lx.input && n.stack == lx.stack && n.state == lx.state
    ensures Positioned(lx) ==> Onward(lx, n)
  {
    if AtEnd(lx) then lx.(width := 0)
    else
      var nl := lx.input[lx.pos] == '\n';
      lx.(pos := lx.pos + 1, width := 1,
          line := if nl then lx.line + 1 else lx.line,
          lstart := if nl then lx.pos else lx.lstart)
  }

  function Backup(lx: Lexer): (b: Lexer)
    requires lx.width <= lx.pos
    ensures b.pos == lx.pos - lx.width && b.width == lx.width
    ensures b.start == lx.start && b.parts == lx.parts && b.stringState == lx.stringState
    ensures b.input == lx.input && b.stack == lx.stack && b.state == lx.state
  {
    var p := lx.pos - lx.width;
    lx.(pos := p, line := if p < |lx.input| && lx.input[p] == '\n' then lx.line - 1 else lx.line)
  }

  /** `Next` then `Backup`: nothing is consumed. */
  function Peeked(lx: Lexer): (p: Lexer)
    ensures p.pos == lx.pos && p.start == lx.start && p.parts == lx.parts && p.stringState == lx.stringState
    ensures Positioned(lx) ==> Onward(lx, p)
  {
    Backup(Next(lx))
  }

  function Ignore(lx: Lexer): (n: Lexer)
    ensures n.pos == lx.pos && n.start == lx.pos && n.parts == lx.parts && n.stringState == lx.stringState
    ensures Positioned(lx) ==> Onward(lx, n)
  {
    lx.(start := lx.pos, ilstart := lx.lstart)
  }

  function Join(parts: seq<string>): string {
    if parts == [] then "" else parts[0] + Join(parts[1..])
  }

  /** The item that `emit` sends: the escaped parts and the pending text. */
  function Emitted(lx: Lexer, typ: ItemType): (it: Item)
    requires Positioned(lx)
    ensures it.typ == typ
  {
    var val := Join(lx.parts) + lx.input[lx.start..lx.pos];
    Item(typ, val, lx.line, lx.pos - lx.ilstart - |val|)
  }

  // ---------- What the stack means ----------

  datatype Kind = MapKind | ArrayKind

  /** What a state is doing, as far as the stack is concerned. `KeyedRole` and
      `MapKeyedRole` have sent a key whose value is still to come. */
  datatype Role =
    | RootRole | BlockRole | KeyRole | KeyedRole | IncludeRole | CommentRole
    | ArrayRole | MapRole | MapKeyedRole | ScalarRole | DoneRole

  /** The state that a skip leads to, or the state itself. */
  function Base(s: State): State { if s.Skip? then s.to else s }

  function RoleOf(s: State): Role {
    var b := Base(s);
    if b.Top? || b.TopValueEnd? then RootRole
    else if b.BlockStart? || b.BlockValueEnd? || b.BlockEnd? then BlockRole
    else if b.KeyStart? || b.DubQuotedKey? || b.QuotedKey? || b.Key? then KeyRole
    else if b.KeyEnd? then KeyedRole
    else if b.IncludeStart? || b.Include? || b.IncludeQuotedString? || b.IncludeDubQuotedString? || b.IncludeString? then IncludeRole
    else if b.CommentStart? || b.Comment? then CommentRole
    else if b.ArrayValue? || b.ArrayValueEnd? || b.ArrayEnd? then ArrayRole
    else if b.MapKeyEnd? || b.MapValue? then MapKeyedRole
    else if b.MapKeyStart? || b.MapQuotedKey? || b.MapDubQuotedKey? || b.MapKey? || b.MapValueEnd? || b.MapEnd? then MapRole
    else if b.Done? then DoneRole
    else ScalarRole
  }

  /** States a value returns to. */
  predicate ValueReturn(s: State) {
    s.TopValueEnd? || s.BlockValueEnd? || s.ArrayValueEnd? || s.MapValueEnd?
  }

  predicate CommentReturn(s: State) {
    || s.Top? || s.BlockStart? || s.BlockValueEnd? || s.ArrayValue? || s.ArrayValueEnd?
    || s.MapKeyStart? || s.MapValueEnd?
  }

  /** `t` is a state that can lie on the stack right below a state of role `r`. */
  predicate Below(r: Role, t: State) {
    match r
    case RootRole => false
    case BlockRole => t.Top? || t.BlockEnd?
    case KeyRole => t.TopValueEnd? || t.BlockValueEnd?
    case KeyedRole => t.TopValueEnd? || t.BlockValueEnd?
    case IncludeRole => t.TopValueEnd? || t.BlockValueEnd? || t.MapValueEnd?
    case CommentRole => CommentReturn(t)
    case DoneRole => true
    case _ => ValueReturn(t)
  }

  /** The states on the stack fit together: each one was pushed by a state that
      can hand control to the one above it. */
  predicate Fits(r: Role, stack: Stack)
    decreases stack
  {
    match stack
    case Empty => r.RootRole? || r.DoneRole?
    case On(t, below) => Below(r, t) && Fits(RoleOf(t), below)
  }

  /** The containers the text has open, outermost first. The top level is a map. */
  function Open(r: Role, stack: Stack): (open: seq<Kind>)
    ensures open != []
    decreases stack
  {
    match stack
    case Empty => [MapKind]
    case On(t, below) =>
      var outer := Open(RoleOf(t), below);
      if r.ArrayRole? then outer + [ArrayKind]
      else if r.MapRole? || r.MapKeyedRole? then outer + [MapKind]
      else outer
  }

  /** Keys that a state of role `r` awaits a value for, beyond those awaited
      outside it; `t` is the state it returns to. */
  function Awaits(r: Role, t: State): nat {
    match r
    case KeyedRole => 1
    case ArrayRole => if t.ArrayValueEnd? then 0 else 1
    case MapRole => if t.ArrayValueEnd? then 0 else 1
    case ScalarRole => if t.ArrayValueEnd? then 0 else 1
    case MapKeyedRole => if t.ArrayValueEnd? then 1 else 2
    case _ => 0
  }

  /** How many keys have been sent for values that are still to come. */
  function Pending(r: Role, stack: Stack): nat
    decreases stack
  {
    match stack
    case Empty => 0
    case On(t, below) => Awaits(r, t) + Pending(RoleOf(t), below)
  }

  /** A value arriving in the innermost container takes a key if that is a map. */
  predicate TakesKey(open: seq<Kind>, need: nat, need': nat) {
    && open != []
    && (if open[|open| - 1].MapKind? then 1 <= need && need' <= need - 1 else need' <= need)
  }

  /** What an item may do to the open containers and the keys awaited. */
  predicate Legal(open: seq<Kind>, need: nat, it: Item, open': seq<Kind>, need': nat) {
    match it.typ
    case ErrorItem => true
    case EofItem => true
    case KeyItem => open' == open && need' <= need + 1
    case TextItem => open' == open && need' <= need
    case CommentStartItem => open' == open && need' <= need
    case MapStartItem => open' == open + [MapKind] && need' <= need
    case ArrayStartItem => open' == open + [ArrayKind] && need' <= need
    case MapEndItem => open == open' + [MapKind] && TakesKey(open', need, need')
    case ArrayEndItem => open == open' + [ArrayKind] && TakesKey(open', need, need')
    case IncludeItem => open' == open && open != [] && open[|open| - 1].MapKind? && need' <= need
    case _ => open' == open && TakesKey(open', need, need')
  }

  // ---------- Progress ----------

  /** Bounds the steps that a state can take without consuming a rune. */
  function BaseRank(s: State, atEnd: bool): nat {
    match s
    case CommentStart => 15
    case Comment => 14
    case KeyStart => if atEnd then 13 else 1
    case Key => 12
    case MapKey => 12
    case IncludeStart => 11
    case Include => 10
    case IncludeString => 9
    case KeyEnd => 10
    case MapKeyEnd => 10
    case MapValue => 9
    case ArrayValue => 9
    case Value => 8
    case NumberStart => 7
    case ConvenientNumber => 7
    case TopValueEnd => 5
    case BlockValueEnd => 5
    case ArrayValueEnd => 5
    case MapValueEnd => 5
    case Top => 4
    case BlockStart => 4
    case BlockEnd => 4
    case MapKeyStart => 4
    case Done => 0
    case _ => 6
  }

  function Rank(s: State, atEnd: bool): nat {
    2 * BaseRank(Base(s), atEnd) + (if s.Skip? then 1 else 0)
  }

  predicate Advances(before: Lexer, after: Lexer) {
    || before.pos < after.pos
    || (before.pos == after.pos && Rank(after.state, AtEnd(after)) < Rank(before.state, AtEnd(before)))
  }

  /** Inside a string with escapes: the state to resume after an escape is a
      string state, and only here can escaped parts be pending. */
  predicate StringState(s: State) {
    s.RawString? || s.DubQuotedString? || s.StringEscape? || s.StringBinary?
  }

  predicate Inside(lx: Lexer, s: State) {
    && (lx.parts != [] ==> StringState(s) || s.Done?)
    && (StringState(s) ==> lx.stringState.RawString? || lx.stringState.DubQuotedString?)
    && (s.StringEscape? || s.Block? ==> 1 <= lx.pos)
    && (s.StringBinary? ==> 2 <= lx.pos)
    && (s.Skip? ==> !s.to.Skip? && !s.to.Done? && !s.to.Block? && !StringState(s.to))
  }

  predicate IsBug(it: Item) { it.typ.ErrorItem? && it.val == BUG }

  /** Well-formed lexers. */
  predicate Good(lx: Lexer) {
    Positioned(lx) && Fits(RoleOf(lx.state), lx.stack) && Inside(lx, lx.state)
  }

  function OpenIn(lx: Lexer): seq<Kind> { Open(RoleOf(lx.state), lx.stack) }
  function PendingIn(lx: Lexer): nat { Pending(RoleOf(lx.state), lx.stack) }

  /** The contract of every state function: the lexer stays well formed, gets
      closer to the end of the text, sends at most one item, and that item fits
      the containers that are open. The lexer stops exactly when it sends the
      end-of-file or an error item. */
  predicate Keeps(before: Lexer, s: Stepped) {
    && Good(s.lx)
    && s.lx.input == before.input
    && Advances(before, s.lx)
    && |s.items| <= 1
    && (s.items != [] ==> !IsBug(s.items[0]))
    && (s.lx.state.Done? <==> s.items != [] && (s.items[0].typ.EofItem? || s.items[0].typ.ErrorItem?))
    && (s.items == [] ==> OpenIn(s.lx) == OpenIn(before) && PendingIn(s.lx) <= PendingIn(before))
    && (s.items != [] ==> Legal(OpenIn(before), PendingIn(before), s.items[0], OpenIn(s.lx), PendingIn(s.lx)))
  }

  // ---------- Transitions ----------

  /** A state of role `to` may take the place of one of role `from`. */
  predicate Follows(from: Role, to: Role) {
    from == to || (from.KeyedRole? && to.ScalarRole?) || (from.MapKeyedRole? && to.MapRole?)
  }

  lemma FollowsKeeps(from: Role, to: Role, stack: Stack)
    requires Follows(from, to) && Fits(from, stack)
    ensures Fits(to, stack) && Open(to, stack) == Open(from, stack)
    ensures Pending(to, stack) == Pending(from, stack) - (if from.MapKeyedRole? && to.MapRole? then 1 else 0)
  {
  }

  /** What a state function must know of a transition to state `s` at `n`. */
  predicate Moves(lx: Lexer, n: Lexer, s: State) {
    && Good(lx) && Onward(lx, n) && Inside(n, s) && !s.Done?
    && (lx.pos < n.pos || Rank(s, AtEnd(n)) < Rank(lx.state, AtEnd(lx)))
  }

  /** Go on to a state at the same place in the text's structure. */
  function Goto(lx: Lexer, n: Lexer, s: State): (r: Stepped)
    requires Moves(lx, n, s) && Follows(RoleOf(lx.state), RoleOf(s))
    ensures Keeps(lx, r)
  {
    hide Rank;
    FollowsKeeps(RoleOf(lx.state), RoleOf(s), lx.stack);
    Stepped(n.(state := s), [])
  }

  /** A lexer can stop anywhere. */
  lemma CanStop(lx: Lexer)
    requires Good(lx) && !lx.state.Done?
    ensures RoleOf(Done) == DoneRole && Fits(DoneRole, lx.stack)
    ensures Rank(Done, true) == 0 && Rank(Done, false) == 0
    ensures Rank(lx.state, AtEnd(lx)) > 0
  {
    hide RoleOf, BaseRank;
    DoneIsLast(Base(lx.state), AtEnd(lx));
  }

  lemma DoneIsLast(s: State, atEnd: bool)
    ensures RoleOf(Done) == DoneRole && BaseRank(Done, true) == 0 && BaseRank(Done, false) == 0
    ensures !s.Done? ==> BaseRank(s, atEnd) > 0
  {
  }

  /** Stop on an error. */
  function Fail(lx: Lexer, n: Lexer): (r: Stepped)
    requires Good(lx) && !lx.state.Done? && Onward(lx, n)
    ensures Keeps(lx, r)
  {
    hide RoleOf, Rank, Fits, Open, Pending;
    CanStop(lx);
    Stepped(n.(state := Done), [Item(ErrorItem, "", n.line, n.pos - n.lstart)])
  }

  /** Stop at the end of the text. */
  function Finish(lx: Lexer, n: Lexer): (r: Stepped)
    requires Good(lx) && !lx.state.Done? && Onward(lx, n)
    ensures Keeps(lx, r)
  {
    hide RoleOf, Rank, Fits, Open, Pending, Emitted;
    CanStop(lx);
    Stepped(Ignore(n).(state := Done), [Emitted(n, EofItem)])
  }

  /** Stop at the end of the text, or fail if something is left unread. */
  function Stop(lx: Lexer, n: Lexer): (r: Stepped)
    requires Good(lx) && !lx.state.Done? && Onward(lx, n)
    ensures Keeps(lx, r)
  {
    if n.pos > n.start then Fail(lx, n) else Finish(lx, n)
  }

  /** Push the state to return to, and go to `s`. */
  function Call(lx: Lexer, n: Lexer, ret: State, s: State): (r: Stepped)
    requires Moves(lx, n, s) && Follows(RoleOf(lx.state), RoleOf(ret)) && Below(RoleOf(s), ret)
    requires RoleOf(s).BlockRole? || RoleOf(s).KeyRole? || RoleOf(s).IncludeRole? || RoleOf(s).CommentRole?
             || (RoleOf(s).ScalarRole? && (ret.ArrayValueEnd? || RoleOf(lx.state).MapKeyedRole?))
    ensures Keeps(lx, r)
  {
    hide Rank;
    FollowsKeeps(RoleOf(lx.state), RoleOf(ret), lx.stack);
    Stepped(n.(state := s, stack := On(ret, n.stack)), [])
  }

  /** Return to the state on top of the stack, having sent `sent`; an empty
      stack is reported as a bug in the lexer. */
  function Pop(n: Lexer, sent: seq<Item>): Stepped {
    match n.stack
    case Empty => Stepped(n.(state := Done), sent + [Item(ErrorItem, BUG, n.line, n.pos - n.lstart)])
    case On(s, below) => Stepped(n.(state := s, stack := below), sent)
  }

  /** The innermost container at the place a value returns to. */
  lemma {:induction false} InnermostOpen(t: State, below: Stack)
    requires Fits(RoleOf(t), below) && (ValueReturn(t) || t.BlockEnd? || t.Top?)
    ensures var open := Open(RoleOf(t), below);
            open[|open| - 1] == (if t.ArrayValueEnd? then ArrayKind else MapKind)
    decreases below
  {
    if below.On? && RoleOf(t).BlockRole? {
      InnermostOpen(below.top, below.below);
    }
  }

  /** The states a lexer returns to rank below those it returns from. */
  lemma StateRanks(lx: Lexer)
    ensures forall atEnd :: lx.stack.On? && ValueReturn(lx.stack.top) ==> BaseRank(lx.stack.top, atEnd) == 5
    ensures forall atEnd :: lx.stack.On? && CommentReturn(lx.stack.top) ==> BaseRank(lx.stack.top, atEnd) <= 9
    ensures lx.state.Comment? || lx.state.IncludeString? || lx.state.ArrayEnd? || lx.state.MapEnd? ==>
              BaseRank(lx.state, AtEnd(lx)) >= (if lx.state.Comment? then 14 else 6)
  {
  }

  /** A closing brace of a top-level block. */
  function Return(lx: Lexer, n: Lexer): (r: Stepped)
    requires Good(lx) && Onward(lx, n) && lx.pos < n.pos && n.parts == [] && RoleOf(lx.state).BlockRole?
    ensures Keeps(lx, r)
  {
    Pop(n, [])
  }

  predicate ScalarType(typ: ItemType) {
    || typ.StringItem? || typ.BoolItem? || typ.IntegerItem? || typ.FloatItem? || typ.DatetimeItem?
    || typ.VariableItem?
  }

  /** Where a scalar belongs: the containers stay open, and a key is used up
      unless the innermost one is an array. */
  lemma ScalarReturns(stack: Stack)
    requires Fits(ScalarRole, stack)
    ensures stack.On? && ValueReturn(stack.top) && Fits(RoleOf(stack.top), stack.below)
    ensures var outer := Open(RoleOf(stack.top), stack.below);
            outer == Open(ScalarRole, stack) && TakesKey(outer, Pending(ScalarRole, stack), Pending(RoleOf(stack.top), stack.below))
  {
    hide RoleOf;
    InnermostOpen(stack.top, stack.below);
  }

  lemma ReturnIsPlain(lx: Lexer, t: State)
    requires ValueReturn(t) && lx.parts == []
    ensures Inside(lx, t) && !t.Done? && !t.Skip?
  {
  }

  lemma ScalarIsLegal(open: seq<Kind>, need: nat, it: Item, need': nat)
    requires ScalarType(it.typ) && TakesKey(open, need, need')
    ensures Legal(open, need, it, open, need') && !it.typ.ErrorItem? && !it.typ.EofItem? && !IsBug(it)
  {
    hide TakesKey;
  }

  /** Send a scalar and return to where its value belongs. */
  function SendValue(lx: Lexer, n: Lexer, it: Item): (r: Stepped)
    requires Good(lx) && Onward(lx, n) && n.parts == []
    requires RoleOf(lx.state).ScalarRole? && ScalarType(it.typ)
    requires lx.pos < n.pos || (!lx.state.Skip? && BaseRank(lx.state, AtEnd(lx)) >= 6)
    ensures Keeps(lx, r)
  {
    hide BaseRank, RoleOf, Fits, Open, Pending, TakesKey, Legal, ScalarType, IsBug, Inside, ValueReturn;
    StateRanks(lx);
    ScalarReturns(lx.stack);
    ReturnIsPlain(n.(state := lx.stack.top, stack := lx.stack.below), lx.stack.top);
    ScalarIsLegal(OpenIn(lx), PendingIn(lx), it, Pending(RoleOf(lx.stack.top), lx.stack.below));
    Pop(n, [it])
  }

  /** Send the end of an array and return to where it belongs. */
  function SendArrayEnd(lx: Lexer, n: Lexer, it: Item): (r: Stepped)
    requires Good(lx) && Onward(lx, n) && n.parts == [] && lx.state.ArrayEnd? && it.typ.ArrayEndItem?
    ensures Keeps(lx, r)
  {
    hide BaseRank;
    StateRanks(lx);
    InnermostOpen(lx.stack.top, lx.stack.below);
    Pop(n, [it])
  }

  /** Send the end of a map and return to where it belongs. */
  function SendMapEnd(lx: Lexer, n: Lexer, it: Item): (r: Stepped)
    requires Good(lx) && Onward(lx, n) && n.parts == [] && lx.state.MapEnd? && it.typ.MapEndItem?
    ensures Keeps(lx, r)
  {
    hide BaseRank;
    StateRanks(lx);
    InnermostOpen(lx.stack.top, lx.stack.below);
    Pop(n, [it])
  }

  /** Send an include and return. */
  function SendInclude(lx: Lexer, n: Lexer, it: Item): (r: Stepped)
    requires Good(lx) && Onward(lx, n) && n.parts == []
    requires RoleOf(lx.state).IncludeRole? && it.typ.IncludeItem? && (lx.pos < n.pos || lx.state.IncludeString?)
    ensures Keeps(lx, r)
  {
    hide BaseRank;
    StateRanks(lx);
    InnermostOpen(lx.stack.top, lx.stack.below);
    Pop(n, [it])
  }

  /** Send the text of a comment and return. */
  function SendText(lx: Lexer, n: Lexer, it: Item): (r: Stepped)
    requires Good(lx) && Onward(lx, n) && n.parts == [] && lx.state.Comment? && it.typ.TextItem?
    ensures Keeps(lx, r)
  {
    hide BaseRank;
    StateRanks(lx);
    Pop(n, [it])
  }

  /** Send an item and go on. */
  function Send(lx: Lexer, n: Lexer, it: Item, s: State): (r: Stepped)
    requires Moves(lx, n, s)
    requires match it.typ
             case KeyItem => (RoleOf(lx.state).KeyRole? && RoleOf(s).KeyedRole?) || (RoleOf(lx.state).MapRole? && RoleOf(s).MapKeyedRole?)
             case ArrayStartItem => RoleOf(lx.state).ScalarRole? && RoleOf(s).ArrayRole?
             case MapStartItem => RoleOf(lx.state).ScalarRole? && RoleOf(s).MapRole?
             case CommentStartItem => RoleOf(lx.state).CommentRole? && RoleOf(s).CommentRole?
             case _ => false
    ensures Keeps(lx, r)
  {
    hide Rank;
    Stepped(n.(state := s), [it])
  }

  // ---------- State functions ----------

  // The roles of the states that the state functions name, one state at a time
  // and then together.

  lemma RootState(s: State)
    requires Base(s).Top? || Base(s).TopValueEnd?
    ensures RoleOf(s) == RootRole
  {
  }

  lemma BlockState(s: State)
    requires Base(s).BlockStart? || Base(s).BlockValueEnd? || Base(s).BlockEnd?
    ensures RoleOf(s) == BlockRole
  {
  }

  lemma KeyState(s: State)
    requires Base(s).KeyStart? || Base(s).DubQuotedKey? || Base(s).QuotedKey? || Base(s).Key?
    ensures RoleOf(s) == KeyRole
  {
  }

  lemma KeyedState(s: State)
    requires Base(s).KeyEnd?
    ensures RoleOf(s) == KeyedRole
  {
  }

  lemma IncludeState(s: State)
    requires Base(s).IncludeStart? || Base(s).Include? || Base(s).IncludeQuotedString?
            || Base(s).IncludeDubQuotedString? || Base(s).IncludeString?
    ensures RoleOf(s) == IncludeRole
  {
  }

  lemma CommentState(s: State)
    requires Base(s).CommentStart? || Base(s).Comment?
    ensures RoleOf(s) == CommentRole
  {
  }

  lemma ArrayState(s: State)
    requires Base(s).ArrayValue? || Base(s).ArrayValueEnd? || Base(s).ArrayEnd?
    ensures RoleOf(s) == ArrayRole
  {
  }

  lemma MapKeyedState(s: State)
    requires Base(s).MapKeyEnd? || Base(s).MapValue?
    ensures RoleOf(s) == MapKeyedRole
  {
  }

  lemma MapState(s: State)
    requires Base(s).MapKeyStart? || Base(s).MapQuotedKey? || Base(s).MapDubQuotedKey? || Base(s).MapKey?
            || Base(s).MapValueEnd? || Base(s).MapEnd?
    ensures RoleOf(s) == MapRole
  {
  }

  lemma ScalarState(s: State)
    requires Base(s).Value? || Base(s).QuotedString? || Base(s).DubQuotedString? || Base(s).RawString?
            || Base(s).Block? || Base(s).StringEscape? || Base(s).StringBinary? || Base(s).NumberStart?
            || Base(s).Number? || Base(s).ConvenientNumber? || Base(s).DateAfterYear? || Base(s).NegNumberStart?
            || Base(s).NegNumber? || Base(s).FloatStart? || Base(s).Float? || Base(s).IPAddr?
    ensures RoleOf(s) == ScalarRole
  {
  }

  lemma OuterRoles()
    ensures RoleOf(Top) == RoleOf(TopValueEnd) == RoleOf(Skip(Top)) == RootRole
    ensures RoleOf(BlockStart) == RoleOf(BlockValueEnd) == RoleOf(BlockEnd) == RoleOf(Skip(BlockStart)) == BlockRole
    ensures RoleOf(KeyStart) == RoleOf(DubQuotedKey) == RoleOf(QuotedKey) == RoleOf(Key) == RoleOf(Skip(KeyStart))
              == RoleOf(Skip(DubQuotedKey)) == RoleOf(Skip(QuotedKey)) == KeyRole
    ensures RoleOf(KeyEnd) == RoleOf(Skip(KeyEnd)) == KeyedRole
    ensures RoleOf(IncludeStart) == RoleOf(Include) == RoleOf(IncludeQuotedString) == RoleOf(IncludeDubQuotedString)
              == RoleOf(IncludeString) == RoleOf(Skip(IncludeStart)) == IncludeRole
    ensures RoleOf(CommentStart) == RoleOf(Comment) == CommentRole
  {
    hide RoleOf;
    RootState(Top); RootState(TopValueEnd); RootState(Skip(Top)); BlockState(BlockStart); BlockState(BlockValueEnd);
    BlockState(BlockEnd); BlockState(Skip(BlockStart)); KeyState(KeyStart); KeyState(DubQuotedKey);
    KeyState(QuotedKey); KeyState(Key); KeyState(Skip(KeyStart)); KeyState(Skip(DubQuotedKey));
    KeyState(Skip(QuotedKey)); KeyedState(KeyEnd); KeyedState(Skip(KeyEnd)); IncludeState(IncludeStart);
    IncludeState(Include); IncludeState(IncludeQuotedString); IncludeState(IncludeDubQuotedString);
    IncludeState(IncludeString); IncludeState(Skip(IncludeStart)); CommentState(CommentStart);
    CommentState(Comment);
  }

  lemma ContainerRoles()
    ensures RoleOf(ArrayValue) == RoleOf(ArrayValueEnd) == RoleOf(ArrayEnd) == RoleOf(Skip(ArrayValue))
              == RoleOf(Skip(ArrayValueEnd)) == ArrayRole
    ensures RoleOf(MapKeyEnd) == RoleOf(MapValue) == RoleOf(Skip(MapKeyEnd)) == RoleOf(Skip(MapValue)) == MapKeyedRole
    ensures RoleOf(MapKeyStart) == RoleOf(MapQuotedKey) == RoleOf(MapDubQuotedKey) == RoleOf(MapKey)
              == RoleOf(MapValueEnd) == RoleOf(MapEnd) == RoleOf(Skip(MapKeyStart)) == RoleOf(Skip(MapQuotedKey))
              == RoleOf(Skip(MapDubQuotedKey)) == RoleOf(Skip(MapValueEnd)) == RoleOf(Skip(MapEnd)) == MapRole
  {
    hide RoleOf;
    ArrayState(ArrayValue); ArrayState(ArrayValueEnd); ArrayState(ArrayEnd); ArrayState(Skip(ArrayValue));
    ArrayState(Skip(ArrayValueEnd)); MapKeyedState(MapKeyEnd); MapKeyedState(MapValue);
    MapKeyedState(Skip(MapKeyEnd)); MapKeyedState(Skip(MapValue)); MapState(MapKeyStart); MapState(MapQuotedKey);
    MapState(MapDubQuotedKey); MapState(MapKey); MapState(MapValueEnd); MapState(MapEnd);
    MapState(Skip(MapKeyStart)); MapState(Skip(MapQuotedKey)); MapState(Skip(MapDubQuotedKey));
    MapState(Skip(MapValueEnd)); MapState(Skip(MapEnd));
  }

  lemma ScalarRoles()
    ensures RoleOf(Value) == RoleOf(QuotedString) == RoleOf(DubQuotedString) == RoleOf(RawString) == RoleOf(Block)
              == RoleOf(StringEscape) == RoleOf(StringBinary) == RoleOf(NumberStart) == RoleOf(Number)
              == RoleOf(ConvenientNumber) == RoleOf(DateAfterYear) == RoleOf(NegNumberStart) == RoleOf(NegNumber)
              == RoleOf(FloatStart) == RoleOf(Float) == RoleOf(IPAddr) == RoleOf(Skip(Value)) == ScalarRole
  {
    hide RoleOf;
    ScalarState(Value); ScalarState(QuotedString); ScalarState(DubQuotedString); ScalarState(RawString);
    ScalarState(Block); ScalarState(StringEscape); ScalarState(StringBinary); ScalarState(NumberStart);
    ScalarState(Number); ScalarState(ConvenientNumber); ScalarState(DateAfterYear); ScalarState(NegNumberStart);
    ScalarState(NegNumber); ScalarState(FloatStart); ScalarState(Float); ScalarState(IPAddr);
    ScalarState(Skip(Value));
  }

  /** The ranks of states that hand over without reading. */
  lemma KeyRanks(atEnd: bool)
    ensures Rank(Key, atEnd) == Rank(MapKey, atEnd) == 24 && Rank(KeyStart, true) == 26
    ensures Rank(IncludeStart, atEnd) == 22 && Rank(KeyEnd, atEnd) == Rank(MapKeyEnd, atEnd) == 20
  {
  }

  lemma ValueRanks(atEnd: bool)
    ensures Rank(Value, atEnd) == 16 && Rank(NumberStart, atEnd) == 14 && Rank(RawString, atEnd) == 12
  {
  }

  /** A `#` or `//` comes next. */
  predicate CommentAhead(lx: Lexer) {
    Rune(lx) == '#' || (Rune(lx) == '/' && Rune(Next(lx)) == '/')
  }

  /** Consume the comment mark and come back to `ret` after the comment. */
  function IntoComment(lx: Lexer, ret: State): (s: Stepped)
    requires Good(lx) && lx.parts == [] && CommentAhead(lx) && CommentReturn(ret)
    requires Follows(RoleOf(lx.state), RoleOf(ret))
    ensures Keeps(lx, s)
  {
    hide Keeps, Fits, Emitted, Rank, Next, Backup, Peeked, Ignore, RoleOf;
    OuterRoles();
    var n := Next(lx);
    Call(lx, if Rune(lx) == '#' then n else Next(n), ret, CommentStart)
  }

  function LexTop(lx: Lexer): (s: Stepped)
    requires Good(lx) && lx.state.Top?
    ensures Keeps(lx, s)
  {
    hide Keeps, Fits, Emitted, Next, Backup, Peeked, Ignore, RoleOf;
    OuterRoles();
    var r, n := Rune(lx), Next(lx);
    if IsSpace(r) then Goto(lx, n, Skip(Top))
    else if r == '{' then Call(lx, n, Top, Skip(BlockStart))
    else if CommentAhead(lx) then IntoComment(lx, Top)
    else if r == '/' then Stop(lx, Peeked(n))
    else if r == EOF then Stop(lx, n)
    else Call(lx, Peeked(lx), TopValueEnd, KeyStart)
  }

  function LexTopValueEnd(lx: Lexer): (s: Stepped)
    requires Good(lx) && lx.state.TopValueEnd?
    ensures Keeps(lx, s)
  {
    hide Keeps, Fits, Emitted, Next, Backup, Peeked, Ignore, RoleOf;
    OuterRoles();
    var r, n := Rune(lx), Next(lx);
    if CommentAhead(lx) then IntoComment(lx, Top)
    else if r == '/' then Goto(lx, Peeked(n), TopValueEnd)
    else if IsWhitespace(r) then Goto(lx, n, TopValueEnd)
    else if IsNL(r) || r == EOF || r == ';' || r == ',' || r == '}' then Goto(lx, Ignore(n), Top)
    else Fail(lx, n)
  }

  function LexBlockStart(lx: Lexer): (s: Stepped)
    requires Good(lx) && lx.state.BlockStart?
    ensures Keeps(lx, s)
  {
    hide Keeps, Fits, Emitted, Next, Backup, Peeked, Ignore, RoleOf;
    OuterRoles();
    var r, n := Rune(lx), Next(lx);
    if IsSpace(r) then Goto(lx, n, Skip(BlockStart))
    else if r == '{' then Call(lx, n, BlockEnd, Skip(BlockStart))
    else if r == '}' then Return(lx, Ignore(n))
    else if CommentAhead(lx) then IntoComment(lx, BlockStart)
    else if r == '/' then Stop(lx, Peeked(n))
    else if r == EOF then Stop(lx, n)
    else Call(lx, Peeked(lx), BlockValueEnd, KeyStart)
  }

  function LexBlockValueEnd(lx: Lexer): (s: Stepped)
    requires Good(lx) && lx.state.BlockValueEnd?
    ensures Keeps(lx, s)
  {
    hide Keeps, Fits, Emitted, Next, Backup, Peeked, Ignore, RoleOf;
    OuterRoles();
    var r, n := Rune(lx), Next(lx);
    if CommentAhead(lx) then IntoComment(lx, BlockValueEnd)
    else if r == '/' then Goto(lx, Peeked(n), BlockValueEnd)
    else if IsWhitespace(r) then Goto(lx, n, BlockValueEnd)
    else if IsNL(r) || r == ';' || r == ',' then Goto(lx, Ignore(n), BlockStart)
    else if r == '}' then Goto(lx, Peeked(lx), BlockEnd)
    else Fail(lx, n)
  }

  function LexBlockEnd(lx: Lexer): (s: Stepped)
    requires Good(lx) && lx.state.BlockEnd?
    ensures Keeps(lx, s)
  {
    hide Keeps, Fits, Emitted, Next, Backup, Peeked, Ignore, RoleOf;
    OuterRoles();
    var r, n := Rune(lx), Next(lx);
    if CommentAhead(lx) then IntoComment(lx, BlockStart)
    else if r == '/' then Goto(lx, Peeked(n), BlockEnd)
    else if IsNL(r) || IsWhitespace(r) then Goto(lx, n, BlockEnd)
    else if r == ';' || r == ',' then Goto(lx, Ignore(n), BlockStart)
    else if r == '}' then Return(lx, Ignore(n))
    else Fail(lx, n)
  }

  function LexKeyStart(lx: Lexer): (s: Stepped)
    requires Good(lx) && lx.state.KeyStart?
    ensures Keeps(lx, s)
  {
    hide Keeps, Fits, Emitted, Next, Backup, Peeked, Ignore, RoleOf, Rank;
    KeyState(KeyStart); KeyState(Skip(KeyStart)); KeyState(Skip(DubQuotedKey)); KeyState(Skip(QuotedKey)); KeyState(Key);
    KeyRanks(AtEnd(lx));
    var r, p := Rune(lx), Peeked(lx);
    if IsKeySeparator(r) then Fail(lx, p)
    else if IsSpace(r) then Goto(lx, Next(p), Skip(KeyStart))
    else if r == '"' then Goto(lx, Next(p), Skip(DubQuotedKey))
    else if r == '\'' then Goto(lx, Next(p), Skip(QuotedKey))
    else Goto(lx, Next(Ignore(p)), Key)
  }

  /** The text of a quoted key, up to its closing quote. */
  function LexQuotedKey(lx: Lexer): (s: Stepped)
    requires Good(lx) && (lx.state.DubQuotedKey? || lx.state.QuotedKey?)
    ensures Keeps(lx, s)
  {
    hide Keeps, Fits, Emitted, Rank, Next, Backup, Peeked, Ignore, RoleOf;
    KeyState(lx.state); KeyedState(Skip(KeyEnd));
    var r, p := Rune(lx), Peeked(lx);
    if r == (if lx.state.DubQuotedKey? then '"' else '\'') then
      Send(lx, Next(Ignore(p)), Emitted(p, KeyItem), Skip(KeyEnd))
    else if r == EOF then Stop(lx, p)
    else Goto(lx, Next(p), lx.state)
  }

  /** A key that a space ends: `include` is a keyword, anything else a key. */
  function KeyCheckKeyword(lx: Lexer, p: Lexer, otherwise: State): (s: Stepped)
    requires Good(lx) && Onward(lx, p) && p.parts == []
    requires (lx.state.Key? && otherwise.KeyEnd?) || (lx.state.MapKey? && otherwise.MapKeyEnd?)
    ensures Keeps(lx, s)
  {
    hide Keeps, Fits, Emitted, Next, Backup, Peeked, Ignore, RoleOf, Rank;
    KeyState(Key); KeyedState(KeyEnd); MapState(MapKey); MapKeyedState(MapKeyEnd); IncludeState(IncludeStart); MapState(MapValueEnd);
    KeyRanks(AtEnd(lx));
    hide Lower;
    if Lower(p.input[p.start..p.pos]) != "include" then Send(lx, Ignore(p), Emitted(p, KeyItem), otherwise)
    else if lx.state.MapKey? then Call(lx, Ignore(p), MapValueEnd, IncludeStart)
    else IncludeAtRoot(lx, Ignore(p))
  }

  /** At the top level the state to return to is on the stack already. */
  function IncludeAtRoot(lx: Lexer, n: Lexer): (s: Stepped)
    requires Good(lx) && Onward(lx, n) && n.parts == [] && lx.state.Key?
    ensures Keeps(lx, s)
  {
    Stepped(n.(state := IncludeStart), [])
  }

  function LexKey(lx: Lexer): (s: Stepped)
    requires Good(lx) && lx.state.Key?
    ensures Keeps(lx, s)
  {
    hide Keeps, Fits, Emitted, Next, Backup, Peeked, Ignore, RoleOf;
    OuterRoles();
    var r, p := Rune(lx), Peeked(lx);
    if IsSpace(r) then KeyCheckKeyword(lx, p, KeyEnd)
    else if IsKeySeparator(r) || r == EOF then Send(lx, Ignore(p), Emitted(p, KeyItem), KeyEnd)
    else Goto(lx, Next(p), Key)
  }

  function LexKeyEnd(lx: Lexer): (s: Stepped)
    requires Good(lx) && lx.state.KeyEnd?
    ensures Keeps(lx, s)
  {
    hide Keeps, Fits, Emitted, Next, Backup, Peeked, Ignore, RoleOf;
    OuterRoles(); ScalarRoles();
    var r, n := Rune(lx), Next(lx);
    if IsSpace(r) then Goto(lx, n, Skip(KeyEnd))
    else if IsKeySeparator(r) then Goto(lx, n, Skip(Value))
    else if r == EOF then Finish(lx, n)
    else Goto(lx, Peeked(lx), Value)
  }

  function LexIncludeStart(lx: Lexer): (s: Stepped)
    requires Good(lx) && lx.state.IncludeStart?
    ensures Keeps(lx, s)
  {
    hide Keeps, Fits, Emitted, Next, Backup, Peeked, Ignore, RoleOf;
    OuterRoles();
    var r, n := Rune(lx), Next(lx);
    if IsWhitespace(r) then Goto(lx, n, Skip(IncludeStart)) else Goto(lx, Peeked(lx), Include)
  }

  function LexInclude(lx: Lexer): (s: Stepped)
    requires Good(lx) && lx.state.Include?
    ensures Keeps(lx, s)
  {
    hide Keeps, Fits, Emitted, Next, Backup, Peeked, Ignore, RoleOf;
    OuterRoles();
    var r, n := Rune(lx), Next(lx);
    if r == '\'' then Goto(lx, Ignore(n), IncludeQuotedString)
    else if r == '"' then Goto(lx, Ignore(n), IncludeDubQuotedString)
    else if r == '[' || r == '{' || r == '(' || r == '-' || r == '\\' || IsDigit(r) || IsNL(r) then Fail(lx, n)
    else Goto(lx, Peeked(lx), IncludeString)
  }

  function LexIncludeQuotedString(lx: Lexer): (s: Stepped)
    requires Good(lx) && (lx.state.IncludeQuotedString? || lx.state.IncludeDubQuotedString?)
    ensures Keeps(lx, s)
  {
    hide Keeps, Fits, Emitted, Rank, Next, Backup, Peeked, Ignore, RoleOf;
    OuterRoles();
    var r, n := Rune(lx), Next(lx);
    var b := Peeked(lx);
    if r == (if lx.state.IncludeDubQuotedString? then '"' else '\'') then
      SendInclude(lx, Ignore(Next(Ignore(b))), Emitted(b, IncludeItem))
    else if r == EOF then Fail(lx, n)
    else Goto(lx, n, lx.state)
  }

  function LexIncludeString(lx: Lexer): (s: Stepped)
    requires Good(lx) && lx.state.IncludeString?
    ensures Keeps(lx, s)
  {
    hide Keeps, Fits, Emitted, Next, Backup, Peeked, Ignore, RoleOf;
    OuterRoles();
    var r, n := Rune(lx), Next(lx);
    var b := Peeked(lx);
    if IsNL(r) || r == EOF || r == ';' || r == '}' || IsWhitespace(r) then
      SendInclude(lx, Ignore(b), Emitted(b, IncludeItem))
    else if r == '\'' then SendInclude(lx, Ignore(Next(Ignore(b))), Emitted(b, IncludeItem))
    else Goto(lx, n, IncludeString)
  }

  function LexValue(lx: Lexer): (s: Stepped)
    requires Good(lx) && lx.state.Value?
    ensures Keeps(lx, s)
  {
    hide Keeps, Fits, Emitted, Next, Backup, Peeked, Ignore, RoleOf, Rank;
    ContainerRoles(); ScalarRoles();
    ValueRanks(AtEnd(lx));
    var r, n := Rune(lx), Next(lx);
    if IsWhitespace(r) then Goto(lx, n, Skip(Value))
    else if r == '[' then Send(lx, Ignore(Ignore(n)), Emitted(Ignore(n), ArrayStartItem), ArrayValue)
    else if r == '{' then Send(lx, Ignore(Ignore(n)), Emitted(Ignore(n), MapStartItem), MapKeyStart)
    else if r == '\'' then Goto(lx, Ignore(n), QuotedString)
    else if r == '"' then Goto(lx, Ignore(n).(stringState := DubQuotedString), DubQuotedString)
    else if r == '-' then Goto(lx, n, NegNumberStart)
    else if r == '(' then Goto(lx, Ignore(n), Block)
    else if IsDigit(r) then Goto(lx, Peeked(lx), NumberStart)
    else if r == '.' || IsNL(r) then Fail(lx, n)
    else Goto(lx, Peeked(lx).(stringState := RawString), RawString)
  }

  function LexArrayValue(lx: Lexer): (s: Stepped)
    requires Good(lx) && lx.state.ArrayValue?
    ensures Keeps(lx, s)
  {
    hide Keeps, Fits, Emitted, Next, Backup, Peeked, Ignore, RoleOf;
    ContainerRoles(); ScalarRoles();
    var r, n := Rune(lx), Next(lx);
    if IsSpace(r) then Goto(lx, n, Skip(ArrayValue))
    else if CommentAhead(lx) then IntoComment(lx, ArrayValue)
    else if r == '/' || r == ',' then Fail(lx, n)
    else if r == ']' then Goto(lx, n, ArrayEnd)
    else Call(lx, Peeked(lx), ArrayValueEnd, Value)
  }

  function LexArrayValueEnd(lx: Lexer): (s: Stepped)
    requires Good(lx) && lx.state.ArrayValueEnd?
    ensures Keeps(lx, s)
  {
    hide Keeps, Fits, Emitted, Next, Backup, Peeked, Ignore, RoleOf;
    ContainerRoles();
    var r, n := Rune(lx), Next(lx);
    if IsWhitespace(r) then Goto(lx, n, Skip(ArrayValueEnd))
    else if CommentAhead(lx) then IntoComment(lx, ArrayValueEnd)
    else if r == '/' then Goto(lx, Peeked(n), Skip(ArrayValue))
    else if r == ',' || IsNL(r) then Goto(lx, n, Skip(ArrayValue))
    else if r == ']' then Goto(lx, n, ArrayEnd)
    else Fail(lx, n)
  }

  function LexArrayEnd(lx: Lexer): (s: Stepped)
    requires Good(lx) && lx.state.ArrayEnd?
    ensures Keeps(lx, s)
  {
    hide Keeps, Fits, Emitted, Next, Backup, Peeked, Ignore, RoleOf;
    ContainerRoles();
    var i := Ignore(lx);
    SendArrayEnd(lx, Ignore(i), Emitted(i, ArrayEndItem))
  }

  function LexMapKeyStart(lx: Lexer): (s: Stepped)
    requires Good(lx) && lx.state.MapKeyStart?
    ensures Keeps(lx, s)
  {
    hide Keeps, Fits, Emitted, Next, Backup, Peeked, Ignore, RoleOf, Rank;
    ContainerRoles();
    var r := Rune(lx);
    var p := Peeked(lx);
    var n := Next(p);
    if IsKeySeparator(r) || r == ']' || r == EOF then Fail(lx, p)
    else if IsSpace(r) then Goto(lx, n, Skip(MapKeyStart))
    else if r == '}' then Goto(lx, n, Skip(MapEnd))
    else if CommentAhead(lx) then IntoComment(lx, MapKeyStart)
    else if r == '/' then Goto(lx, Next(Ignore(Peeked(n))), MapKey)
    else if r == '\'' then Goto(lx, n, Skip(MapQuotedKey))
    else if r == '"' then Goto(lx, n, Skip(MapDubQuotedKey))
    else Goto(lx, Next(Ignore(p)), MapKey)
  }

  function LexMapQuotedKey(lx: Lexer): (s: Stepped)
    requires Good(lx) && (lx.state.MapQuotedKey? || lx.state.MapDubQuotedKey?)
    ensures Keeps(lx, s)
  {
    hide Keeps, Fits, Emitted, Rank, Next, Backup, Peeked, Ignore, RoleOf;
    MapState(lx.state); MapKeyedState(Skip(MapKeyEnd));
    var r, p := Rune(lx), Peeked(lx);
    if r == EOF then Fail(lx, p)
    else if r == (if lx.state.MapDubQuotedKey? then '"' else '\'') then
      Send(lx, Next(Ignore(p)), Emitted(p, KeyItem), Skip(MapKeyEnd))
    else Goto(lx, Next(p), lx.state)
  }

  function LexMapKey(lx: Lexer): (s: Stepped)
    requires Good(lx) && lx.state.MapKey?
    ensures Keeps(lx, s)
  {
    hide Keeps, Fits, Emitted, Next, Backup, Peeked, Ignore, RoleOf;
    ContainerRoles();
    var r, p := Rune(lx), Peeked(lx);
    if r == EOF then Fail(lx, p)
    else if IsSpace(r) then KeyCheckKeyword(lx, p, MapKeyEnd)
    else if IsKeySeparator(r) then Send(lx, Ignore(p), Emitted(p, KeyItem), MapKeyEnd)
    else Goto(lx, Next(p), MapKey)
  }

  function LexMapKeyEnd(lx: Lexer): (s: Stepped)
    requires Good(lx) && lx.state.MapKeyEnd?
    ensures Keeps(lx, s)
  {
    hide Keeps, Fits, Emitted, Next, Backup, Peeked, Ignore, RoleOf;
    ContainerRoles();
    var r, n := Rune(lx), Next(lx);
    if IsSpace(r) then Goto(lx, n, Skip(MapKeyEnd))
    else if IsKeySeparator(r) then Goto(lx, n, Skip(MapValue))
    else Goto(lx, Peeked(lx), MapValue)
  }

  function LexMapValue(lx: Lexer): (s: Stepped)
    requires Good(lx) && lx.state.MapValue?
    ensures Keeps(lx, s)
  {
    hide Keeps, Fits, Emitted, Next, Backup, Peeked, Ignore, RoleOf;
    ContainerRoles(); ScalarRoles();
    var r, n := Rune(lx), Next(lx);
    if IsSpace(r) then Goto(lx, n, Skip(MapValue))
    else if r == ',' then Fail(lx, n)
    else if r == '}' then Goto(lx, n, Skip(MapEnd))
    else Call(lx, Peeked(lx), MapValueEnd, Value)
  }

  function LexMapValueEnd(lx: Lexer): (s: Stepped)
    requires Good(lx) && lx.state.MapValueEnd?
    ensures Keeps(lx, s)
  {
    hide Keeps, Fits, Emitted, Next, Backup, Peeked, Ignore, RoleOf;
    ContainerRoles();
    var r, n := Rune(lx), Next(lx);
    if IsWhitespace(r) then Goto(lx, n, Skip(MapValueEnd))
    else if CommentAhead(lx) then IntoComment(lx, MapValueEnd)
    else if r == '/' then Goto(lx, Peeked(n), Skip(MapKeyStart))
    else if r == ';' || r == ',' || IsNL(r) then Goto(lx, n, Skip(MapKeyStart))
    else if r == '}' then Goto(lx, n, Skip(MapEnd))
    else Fail(lx, n)
  }

  function LexMapEnd(lx: Lexer): (s: Stepped)
    requires Good(lx) && lx.state.MapEnd?
    ensures Keeps(lx, s)
  {
    hide Keeps, Fits, Emitted, Next, Backup, Peeked, Ignore, RoleOf;
    ContainerRoles();
    var i := Ignore(lx);
    SendMapEnd(lx, Ignore(i), Emitted(i, MapEndItem))
  }

  function LexQuotedString(lx: Lexer): (s: Stepped)
    requires Good(lx) && lx.state.QuotedString?
    ensures Keeps(lx, s)
  {
    hide Keeps, Fits, Emitted, Rank, Next, Backup, Peeked, Ignore, RoleOf;
    ScalarRoles();
    var r, n := Rune(lx), Next(lx);
    var b := Peeked(lx);
    if r == '\'' then SendValue(lx, Ignore(Next(Ignore(b))), Emitted(b, StringItem))
    else if r == EOF then Stop(lx, n)
    else Goto(lx, n, QuotedString)
  }

  /** Keep what precedes a backslash and read the escape. */
  function IntoEscape(lx: Lexer): (s: Stepped)
    requires Good(lx) && Rune(lx) == '\\' && (lx.state.DubQuotedString? || lx.state.RawString?)
    ensures Keeps(lx, s)
  {
    hide Keeps, Fits, Emitted, Next, Backup, Peeked, Ignore, RoleOf;
    ScalarRoles();
    var n := Next(lx);
    Goto(lx, n.(parts := n.parts + [n.input[n.start..n.pos - 1]], start := n.pos), StringEscape)
  }

  function LexDubQuotedString(lx: Lexer): (s: Stepped)
    requires Good(lx) && lx.state.DubQuotedString?
    ensures Keeps(lx, s)
  {
    hide Keeps, Fits, Emitted, Rank, Next, Backup, Peeked, Ignore, RoleOf;
    ScalarRoles();
    var r, n := Rune(lx), Next(lx);
    var b := Peeked(lx);
    if r == '\\' then IntoEscape(lx)
    else if r == '"' then SendValue(lx, Ignore(Next(Ignore(b))).(parts := []), Emitted(b, StringItem))
    else if r == EOF then Stop(lx, n)
    else Goto(lx, n, DubQuotedString)
  }

  predicate IsBool(s: string) {
    Lower(s) in {"true", "false", "on", "off", "yes", "no"}
  }

  predicate EndsRawString(r: char) {
    IsNL(r) || r == EOF || r == ';' || r == ',' || r == ']' || r == '}' || IsWhitespace(r)
  }

  /** The end of an unquoted string: a boolean, a variable or a string. */
  function EndRawString(lx: Lexer): (s: Stepped)
    requires Good(lx) && lx.state.RawString? && EndsRawString(Rune(lx))
    ensures Keeps(lx, s)
  {
    hide Keeps, Fits, Emitted, Next, Backup, Peeked, Ignore, RoleOf;
    ScalarRoles();
    var b := Peeked(lx);
    if lx.parts == [] && IsBool(b.input[b.start..b.pos]) then SendValue(lx, Ignore(b), Emitted(b, BoolItem))
    else if lx.parts == [] && b.start < |b.input| && b.input[b.start] == '$' then
      SendValue(lx, Ignore(b), Emitted(b.(start := b.start + 1), VariableItem))
    else SendValue(lx, Ignore(b).(parts := []), Emitted(b, StringItem))
  }

  function LexRawString(lx: Lexer): (s: Stepped)
    requires Good(lx) && lx.state.RawString?
    ensures Keeps(lx, s)
  {
    hide Keeps, Fits, Emitted, Next, Backup, Peeked, Ignore, RoleOf;
    ScalarRoles();
    var r, n := Rune(lx), Next(lx);
    var b := Peeked(lx);
    if r == '\\' then IntoEscape(lx)
    else if EndsRawString(r) then EndRawString(lx)
    else if r == '\'' then SendValue(lx, Ignore(Next(Ignore(b))).(parts := []), Emitted(b, StringItem))
    else Goto(lx, n, RawString)
  }

  /** A block string ends at a `)` on a line by itself. Backing up over the end of the
      text moves nothing, so there the `)` stays in the string. */
  function LexBlock(lx: Lexer): (s: Stepped)
    requires Good(lx) && lx.state.Block?
    ensures Keeps(lx, s)
  {
    hide Keeps, Fits, Emitted, Next, Backup, Peeked, Ignore, RoleOf;
    ScalarRoles();
    var r, n := Rune(lx), Next(lx);
    if r == EOF then Fail(lx, n)
    else if r != ')' then Goto(lx, n, Block)
    else
      var b := Backup(Backup(n));
      if Rune(b) != '\n' then Goto(lx, Next(Next(b)), Block)
      else
        var c := Next(Next(b));
        var d := Next(c);
        if Rune(c) == '\n' || Rune(c) == EOF then
          var e := Backup(Backup(d));
          SendValue(lx, Ignore(Next(Ignore(e))), Emitted(e, StringItem))
        else Goto(lx, Backup(d), Block)
  }

  function AddStringPart(lx: Lexer, n: Lexer, part: string): (s: Stepped)
    requires Good(lx) && (lx.state.StringEscape? || lx.state.StringBinary?) && Onward(lx, n) && lx.pos < n.pos
    requires n.stringState == lx.stringState
    ensures Keeps(lx, s)
  {
    hide Keeps, Fits, Emitted, Next, Backup, Peeked, Ignore, RoleOf;
    ScalarRoles();
    Goto(lx, n.(parts := n.parts + [part], start := n.pos), lx.stringState)
  }

  function LexStringEscape(lx: Lexer): (s: Stepped)
    requires Good(lx) && lx.state.StringEscape?
    ensures Keeps(lx, s)
  {
    hide Keeps, Fits, Emitted, Next, Backup, Peeked, Ignore, RoleOf;
    ScalarRoles();
    var r, n := Rune(lx), Next(lx);
    if r == 'x' then Goto(lx, n, StringBinary)
    else if r == 't' then AddStringPart(lx, n, "\t")
    else if r == 'n' then AddStringPart(lx, n, "\n")
    else if r == 'r' then AddStringPart(lx, n, "\r")
    else if r == '"' then AddStringPart(lx, n, "\"")
    else if r == '\\' then AddStringPart(lx, n, "\\")
    else Fail(lx, n)
  }

  function LexStringBinary(lx: Lexer): (s: Stepped)
    requires Good(lx) && lx.state.StringBinary?
    ensures Keeps(lx, s)
  {
    hide Keeps, Fits, Emitted, Next, Backup, Peeked, Ignore, RoleOf;
    ScalarRoles();
    var n := Next(lx);
    var m := Next(n);
    if IsNL(Rune(lx)) then Fail(lx, n)
    else if IsNL(Rune(n)) then Fail(lx, m)
    else
      var hi, lo := m.input[m.pos - 2], m.input[m.pos - 1];
      if AtEnd(n) || !IsHex(hi) || !IsHex(lo) then Fail(lx, m)
      else AddStringPart(lx, m, [(16 * HexValue(hi) + HexValue(lo)) as char])
  }

  function LexNumberStart(lx: Lexer): (s: Stepped)
    requires Good(lx) && (lx.state.NumberStart? || lx.state.NegNumberStart?)
    ensures Keeps(lx, s)
  {
    hide Keeps, Fits, Emitted, Rank, Next, Backup, Peeked, Ignore, RoleOf;
    ScalarRoles();
    var r, n := Rune(lx), Next(lx);
    if !IsDigit(r) then Fail(lx, n) else Goto(lx, n, if lx.state.NumberStart? then Number else NegNumber)
  }

  /** Runes that end an integer. A closing bracket is not one of them. */
  predicate EndsNumber(r: char) {
    IsNL(r) || r == EOF || r == '}' || r == ';' || r == ',' || IsWhitespace(r) || IsDigit(r)
  }

  function LexNumber(lx: Lexer): (s: Stepped)
    requires Good(lx) && lx.state.Number?
    ensures Keeps(lx, s)
  {
    hide Keeps, Fits, Emitted, Next, Backup, Peeked, Ignore, RoleOf;
    ScalarRoles();
    var r, n := Rune(lx), Next(lx);
    if r == '-' && n.pos - n.start != 5 then Fail(lx, n)
    else if r == '-' then Goto(lx, n, DateAfterYear)
    else if IsDigit(r) then Goto(lx, n, Number)
    else if r == '.' then Goto(lx, n, FloatStart)
    else if IsNumberSuffix(r) then Goto(lx, n, ConvenientNumber)
    else if !EndsNumber(r) then Goto(lx, n.(stringState := RawString), RawString)
    else SendValue(lx, Ignore(Peeked(lx)), Emitted(Peeked(lx), IntegerItem))
  }

  function LexConvenientNumber(lx: Lexer): (s: Stepped)
    requires Good(lx) && lx.state.ConvenientNumber?
    ensures Keeps(lx, s)
  {
    hide Keeps, Fits, Emitted, Next, Backup, Peeked, Ignore, RoleOf;
    ScalarRoles();
    var r, n := Rune(lx), Next(lx);
    if r == 'b' || r == 'B' || r == 'i' || r == 'I' then Goto(lx, n, ConvenientNumber)
    else if EndsNumber(r) then SendValue(lx, Ignore(Peeked(lx)), Emitted(Peeked(lx), IntegerItem))
    else Goto(lx, Peeked(lx).(stringState := RawString), RawString)
  }

  /** Zulu date and time after `YYYY-`; a `0` stands for any digit. */
  const DATE_FORMAT := "00-00T00:00:00Z"

  predicate DateAhead(lx: Lexer) {
    && lx.pos + |DATE_FORMAT| <= |lx.input|
    && forall i :: 0 <= i < |DATE_FORMAT| ==>
         if DATE_FORMAT[i] == '0' then IsDigit(lx.input[lx.pos + i]) else lx.input[lx.pos + i] == DATE_FORMAT[i]
  }

  function LexDateAfterYear(lx: Lexer): (s: Stepped)
    requires Good(lx) && lx.state.DateAfterYear?
    ensures Keeps(lx, s)
  {
    hide Keeps, Fits, Emitted, Next, Backup, Peeked, Ignore, RoleOf;
    ScalarRoles();
    var n := lx.(pos := lx.pos + |DATE_FORMAT|, width := 1);
    if DateAhead(lx) then SendValue(lx, Ignore(n), Emitted(n, DatetimeItem)) else Fail(lx, lx)
  }

  function LexNegNumber(lx: Lexer): (s: Stepped)
    requires Good(lx) && lx.state.NegNumber?
    ensures Keeps(lx, s)
  {
    hide Keeps, Fits, Emitted, Next, Backup, Peeked, Ignore, RoleOf;
    ScalarRoles();
    var r, n := Rune(lx), Next(lx);
    if IsDigit(r) then Goto(lx, n, NegNumber)
    else if r == '.' then Goto(lx, n, FloatStart)
    else if IsNumberSuffix(r) then Goto(lx, n, ConvenientNumber)
    else SendValue(lx, Ignore(Peeked(lx)), Emitted(Peeked(lx), IntegerItem))
  }

  function LexFloat(lx: Lexer): (s: Stepped)
    requires Good(lx) && (lx.state.FloatStart? || lx.state.Float?)
    ensures Keeps(lx, s)
  {
    hide Keeps, Fits, Emitted, Next, Backup, Peeked, Ignore, RoleOf;
    ScalarRoles();
    var r, n := Rune(lx), Next(lx);
    if IsDigit(r) then Goto(lx, n, Float)
    else if lx.state.FloatStart? then Fail(lx, n)
    else if r == '.' then Goto(lx, n, IPAddr)
    else SendValue(lx, Ignore(Peeked(lx)), Emitted(Peeked(lx), FloatItem))
  }

  function LexIPAddr(lx: Lexer): (s: Stepped)
    requires Good(lx) && lx.state.IPAddr?
    ensures Keeps(lx, s)
  {
    hide Keeps, Fits, Emitted, Next, Backup, Peeked, Ignore, RoleOf;
    ScalarRoles();
    var r, n := Rune(lx), Next(lx);
    if IsDigit(r) || r == '.' || r == ':' || r == '-' then Goto(lx, n, IPAddr)
    else SendValue(lx, Ignore(Peeked(lx)), Emitted(Peeked(lx), StringItem))
  }

  function LexComment(lx: Lexer): (s: Stepped)
    requires Good(lx) && (lx.state.CommentStart? || lx.state.Comment?)
    ensures Keeps(lx, s)
  {
    hide Keeps, Fits, Emitted, Next, Backup, Peeked, Ignore, RoleOf;
    OuterRoles();
    var r, p := Rune(lx), Peeked(lx);
    var i := Ignore(lx);
    if lx.state.CommentStart? then Send(lx, Ignore(i), Emitted(i, CommentStartItem), Comment)
    else if IsNL(r) || r == EOF then SendText(lx, Ignore(p), Emitted(p, TextItem))
    else Goto(lx, Next(p), Comment)
  }

  /** Drop the pending text on the way to the next state. */
  function LexSkip(lx: Lexer): (s: Stepped)
    requires Good(lx) && lx.state.Skip?
    ensures Keeps(lx, s)
  {
    hide Keeps, Fits, Emitted, Next, Backup, Peeked, Ignore;
    Goto(lx, Ignore(lx), lx.state.to)
  }

  /** Run the state function of the current state. */
  function Step(lx: Lexer): (s: Stepped)
    requires Good(lx) && !lx.state.Done?
    ensures Keeps(lx, s)
  {
    hide Keeps, Good;
    match lx.state
    case Top => LexTop(lx)
    case TopValueEnd => LexTopValueEnd(lx)
    case BlockStart => LexBlockStart(lx)
    case BlockValueEnd => LexBlockValueEnd(lx)
    case BlockEnd => LexBlockEnd(lx)
    case KeyStart => LexKeyStart(lx)
    case DubQuotedKey => LexQuotedKey(lx)
    case QuotedKey => LexQuotedKey(lx)
    case Key => LexKey(lx)
    case KeyEnd => LexKeyEnd(lx)
    case IncludeStart => LexIncludeStart(lx)
    case Include => LexInclude(lx)
    case IncludeQuotedString => LexIncludeQuotedString(lx)
    case IncludeDubQuotedString => LexIncludeQuotedString(lx)
    case IncludeString => LexIncludeString(lx)
    case Value => LexValue(lx)
    case ArrayValue => LexArrayValue(lx)
    case ArrayValueEnd => LexArrayValueEnd(lx)
    case ArrayEnd => LexArrayEnd(lx)
    case MapKeyStart => LexMapKeyStart(lx)
    case MapQuotedKey => LexMapQuotedKey(lx)
    case MapDubQuotedKey => LexMapQuotedKey(lx)
    case MapKey => LexMapKey(lx)
    case MapKeyEnd => LexMapKeyEnd(lx)
    case MapValue => LexMapValue(lx)
    case MapValueEnd => LexMapValueEnd(lx)
    case MapEnd => LexMapEnd(lx)
    case QuotedString => LexQuotedString(lx)
    case DubQuotedString => LexDubQuotedString(lx)
    case RawString => LexRawString(lx)
    case Block => LexBlock(lx)
    case StringEscape => LexStringEscape(lx)
    case StringBinary => LexStringBinary(lx)
    case NumberStart => LexNumberStart(lx)
    case Number => LexNumber(lx)
    case ConvenientNumber => LexConvenientNumber(lx)
    case DateAfterYear => LexDateAfterYear(lx)
    case NegNumberStart => LexNumberStart(lx)
    case NegNumber => LexNegNumber(lx)
    case FloatStart => LexFloat(lx)
    case Float => LexFloat(lx)
    case IPAddr => LexIPAddr(lx)
    case CommentStart => LexComment(lx)
    case Comment => LexComment(lx)
    case Skip(_) => LexSkip(lx)
  }

  // ---------- Whole runs ----------

  function Begin(text: string): Lexer {
    Lexer(text, 0, 0, 0, 1, 0, 0, Top, Empty, [], Done)
  }

  predicate IsLast(it: Item) { it.typ.EofItem? || it.typ.ErrorItem? }

  /** The end-of-file or error item comes last and only there, and none reports
      a state popped off an empty stack. */
  predicate Ended(items: seq<Item>) {
    && items != [] && IsLast(items[|items| - 1])
    && (forall i :: 0 <= i < |items| - 1 ==> !IsLast(items[i]))
    && (forall i :: 0 <= i < |items| ==> !IsBug(items[i]))
  }

  lemma EndedBy(it: Item, rest: seq<Item>)
    requires !IsBug(it) && if IsLast(it) then rest == [] else Ended(rest)
    ensures Ended([it] + rest)
  {
    hide IsBug, IsLast;
  }

  /** Everything the lexer sends from here on. It stops on every text. */
  function Run(lx: Lexer): (items: seq<Item>)
    requires Good(lx)
    ensures if lx.state.Done? then items == [] else Ended(items)
    decreases |lx.input| - lx.pos, Rank(lx.state, AtEnd(lx))
  {
    hide Good, Step, Keeps, Rank, IsBug, IsLast, Ended;
    if lx.state.Done? then []
    else
      var s := Step(lx);
      RunShrinks(lx, s);
      var rest := Run(s.lx);
      if s.items == [] then rest
      else
        EndedBy(s.items[0], rest);
        [s.items[0]] + rest
  }

  lemma RunShrinks(lx: Lexer, s: Stepped)
    requires Good(lx) && Keeps(lx, s)
    ensures Good(s.lx) && s.lx.input == lx.input && s.lx.pos <= |s.lx.input| && lx.pos <= s.lx.pos
    ensures |s.items| <= 1 && (s.items != [] ==> !IsBug(s.items[0]))
    ensures s.lx.state.Done? <==> s.items != [] && IsLast(s.items[0])
    ensures lx.pos < s.lx.pos || Rank(s.lx.state, AtEnd(s.lx)) < Rank(lx.state, AtEnd(lx))
  {
  }

  function Lex(text: string): (items: seq<Item>)
    ensures Ended(items)
  {
    Run(Begin(text))
  }

  /** Items that only ever close the innermost open container, by its own kind,
      and only ever put a value into a map that has a key for it. `keys` is how
      many keys are on hand. */
  predicate Nested(open: seq<Kind>, keys: nat, items: seq<Item>)
    requires open != []
    decreases |items|, 0
  {
    if items == [] then true
    else
      var rest := items[1..];
      var inner, outer := open[|open| - 1], open[..|open| - 1];
      match items[0].typ
      case ErrorItem => true
      case EofItem => true
      case KeyItem => Nested(open, keys + 1, rest)
      case TextItem => Nested(open, keys, rest)
      case CommentStartItem => Nested(open, keys, rest)
      case MapStartItem => Nested(open + [MapKind], keys, rest)
      case ArrayStartItem => Nested(open + [ArrayKind], keys, rest)
      case MapEndItem => inner.MapKind? && outer != [] && ValueNested(outer, keys, rest)
      case ArrayEndItem => inner.ArrayKind? && outer != [] && ValueNested(outer, keys, rest)
      case IncludeItem => inner.MapKind? && Nested(open, keys, rest)
      case _ => ValueNested(open, keys, rest)
  }

  predicate ValueNested(open: seq<Kind>, keys: nat, rest: seq<Item>)
    requires open != []
    decreases |rest|, 1
  {
    if open[|open| - 1].ArrayKind? then Nested(open, keys, rest)
    else 1 <= keys && Nested(open, keys - 1, rest)
  }

  /** The keys on hand after an item, given the containers open after it. */
  function KeysAfter(it: Item, open': seq<Kind>, keys: nat): int
    requires open' != []
  {
    match it.typ
    case KeyItem => keys + 1
    case TextItem => keys
    case CommentStartItem => keys
    case MapStartItem => keys
    case ArrayStartItem => keys
    case IncludeItem => keys
    case _ => if open'[|open'| - 1].MapKind? then keys - 1 else keys
  }

  lemma LegalIsNested(open: seq<Kind>, need: nat, it: Item, open': seq<Kind>, need': nat, keys: nat, rest: seq<Item>)
    requires open != [] && open' != []
    requires Legal(open, need, it, open', need') && !IsLast(it) && need <= keys
    ensures need' <= KeysAfter(it, open', keys)
    ensures Nested(open', KeysAfter(it, open', keys), rest) ==> Nested(open, keys, [it] + rest)
  {
    assert ([it] + rest)[1..] == rest;
    if it.typ.MapEndItem? {
      assert open[..|open| - 1] == open';
    } else if it.typ.ArrayEndItem? {
      assert open[..|open| - 1] == open';
    }
  }

  /** Every run of the lexer sends nested items. */
  lemma {:induction false} RunIsNested(lx: Lexer, keys: nat)
    requires Good(lx) && PendingIn(lx) <= keys
    ensures Nested(OpenIn(lx), keys, Run(lx))
    decreases |lx.input| - lx.pos, Rank(lx.state, AtEnd(lx))
  {
    hide Good, Step, Legal;
    if !lx.state.Done? {
      var s := Step(lx);
      RunShrinks(lx, s);
      if s.items == [] {
        RunIsNested(s.lx, keys);
      } else if !s.lx.state.Done? {
        var it := s.items[0];
        LegalIsNested(OpenIn(lx), PendingIn(lx), it, OpenIn(s.lx), PendingIn(s.lx), keys, Run(s.lx));
        RunIsNested(s.lx, KeysAfter(it, OpenIn(s.lx), keys));
      }
    }
  }

  /** For every text, the lexer never pops an empty stack and closes only the
      container that is open. */
  lemma LexIsNested(text: string)
    ensures Nested([MapKind], 0, Lex(text))
  {
    RunIsNested(Begin(text), 0);
  }
}
