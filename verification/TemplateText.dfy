/** The text of permission templates: what an operation between double braces means, and
    how its values are put into a subject. */
module TemplateText {
  import opened Ascii
  import opened TemplateExpansion

  // ---------- Operations ----------

  /** Whose permissions are expanded. */
  datatype Who = Who(name: string, subject: string, accountName: string, accountSubject: string)

  function TrimPrefix(s: string, p: string): string { if p <= s then s[|p|..] else s }

  predicate EndsWith(s: string, e: string) { |e| <= |s| && s[|s| - |e|..] == e }

  function TrimSuffix(s: string, e: string): string { if EndsWith(s, e) then s[..|s| - |e|] else s }

  /** A call of `name` in any case, with a closing parenthesis. */
  predicate Calls(op: string, name: string) { |name| <= |op| && Lower(op[..|name|]) == name && EndsWith(op, ")") }

  /** What such a call is about. Its name is taken off in lower case only. */
  function Argument(op: string, name: string): string { TrimSuffix(TrimPrefix(op, name), ")") }

  function OpOf(who: Who, src: string): Op { OpNamed(who, Trim(TrimSuffix(TrimPrefix(src, "{{"), "}}"))) }

  function OpNamed(who: Who, op: string): Op {
    if Lower(op) == "name()" then Fixed(who.name)
    else if Lower(op) == "subject()" then Fixed(who.subject)
    else if Lower(op) == "account-name()" then Fixed(who.accountName)
    else if Lower(op) == "account-subject()" then Fixed(who.accountSubject)
    else if Calls(op, "tag(") then Tag(Lower(Argument(op, "tag(")) + ":", false)
    else if Calls(op, "account-tag(") then Tag(Lower(Argument(op, "account-tag(")) + ":", true)
    else Unknown
  }

  predicate Blank(s: string) { forall i :: 0 <= i < |s| ==> IsSpace(s[i]) }

  predicate Tight(s: string) { s != "" && !IsSpace(s[0]) && !IsSpace(s[|s| - 1]) }

  lemma {:induction false} TrimsPadding(pad: string, s: string, pad': string)
    requires Blank(pad) && Blank(pad') && Tight(s)
    ensures Trim(pad + (s + pad')) == s
    decreases |pad| + |pad'|
  {
    var t := pad + (s + pad');
    if pad != "" {
      assert t[0] == pad[0] && t[1..] == pad[1..] + (s + pad');
      TrimsPadding(pad[1..], s, pad');
    } else if pad' != "" {
      assert t[0] == s[0] && t[|t| - 1] == pad'[|pad'| - 1] && t[..|t| - 1] == pad + (s + pad'[..|pad'| - 1]);
      TrimsPadding(pad, s, pad'[..|pad'| - 1]);
    } else {
      assert t == s;
    }
  }

  /** An operation between braces, with blanks around it. */
  function Braced(pad: string, op: string, pad': string): string { "{{" + (pad + (op + pad') + "}}") }

  lemma BracesComeOff(pad: string, op: string, pad': string)
    requires Blank(pad) && Blank(pad') && Tight(op)
    ensures Trim(TrimSuffix(TrimPrefix(Braced(pad, op, pad'), "{{"), "}}")) == op
  {
    var inner := pad + (op + pad');
    var src := Braced(pad, op, pad');
    assert src[2..] == inner + "}}" && "{{" <= src;
    assert (inner + "}}")[|inner|..] == "}}" && (inner + "}}")[..|inner|] == inner;
    TrimsPadding(pad, op, pad');
  }

  lemma CallIs(name: string, arg: string)
    requires name != "" && Lower(name) == name
    ensures Calls(name + (arg + ")"), name) && Argument(name + (arg + ")"), name) == arg
  {
    var op := name + (arg + ")");
    assert op[..|name|] == name && op[|name|..] == arg + ")" && op[|op| - 1..] == ")";
    assert (arg + ")")[|arg|..] == ")" && (arg + ")")[..|arg|] == arg;
  }

  lemma LowerTail(op: string, n: nat)
    requires n <= |op|
    ensures Lower(op)[..n] == Lower(op[..n])
  {
  }

  lemma UserTagNamed(who: Who, arg: string)
    ensures OpNamed(who, "tag(" + (arg + ")")) == Tag(Lower(arg) + ":", false)
  {
    hide Calls, Argument, Lower;
    assert Lower("tag(") == "tag(" by { LowerStays(); }
    CallIs("tag(", arg);
    NoFixedName("tag(" + (arg + ")"), "tag(", arg);
  }

  lemma AccountTagNamed(who: Who, arg: string)
    ensures OpNamed(who, "account-tag(" + (arg + ")")) == Tag(Lower(arg) + ":", true)
  {
    hide Calls, Argument, Lower;
    assert Lower("account-tag(") == "account-tag(" by { LowerStays(); }
    CallIs("account-tag(", arg);
    NoFixedName("account-tag(" + (arg + ")"), "account-tag(", arg);
  }

  lemma LowerStays()
    ensures Lower("tag(") == "tag(" && Lower("account-tag(") == "account-tag("
  {
  }

  /** `tag(x)` takes the user's tags and `account-tag(x)` the account's, those that start
      with x in lower case and a colon. */
  lemma TagIsRead(who: Who, pad: string, arg: string, pad': string, ofAccount: bool)
    requires Blank(pad) && Blank(pad')
    ensures var name := if ofAccount then "account-tag(" else "tag(";
            OpOf(who, Braced(pad, name + (arg + ")"), pad')) == Tag(Lower(arg) + ":", ofAccount)
  {
    hide OpNamed, Lower, Braced, Trim, Blank;
    var name := if ofAccount then "account-tag(" else "tag(";
    var op := name + (arg + ")");
    assert op[0] == name[0] && op[|op| - 1] == ')';
    BracesComeOff(pad, op, pad');
    if ofAccount { AccountTagNamed(who, arg); } else { UserTagNamed(who, arg); }
  }

  /** No call of a tag is the name of a fixed value, nor are the two confused. */
  lemma NoFixedName(op: string, name: string, arg: string)
    requires (name == "tag(" || name == "account-tag(") && op == name + (arg + ")")
    ensures Lower(op) != "name()" && Lower(op) != "subject()" && Lower(op) != "account-name()" && Lower(op) != "account-subject()"
    ensures name == "account-tag(" ==> !Calls(op, "tag(")
  {
    assert Lower(op)[0] == name[0];
    if name == "account-tag(" {
      assert Lower(op)[8] == 't' && Lower(op)[9] == 'a';
      assert Lower(op[..4])[0] == 'a';
    }
  }

  /** The operations without an argument, in any case. */
  lemma FixedIsRead(who: Who, pad: string, op: string, pad': string)
    requires Blank(pad) && Blank(pad') && op != ""
    requires Lower(op) == "name()" || Lower(op) == "subject()" || Lower(op) == "account-name()" || Lower(op) == "account-subject()"
    ensures OpOf(who, Braced(pad, op, pad'))
            == Fixed(if Lower(op) == "name()" then who.name else if Lower(op) == "subject()" then who.subject
                     else if Lower(op) == "account-name()" then who.accountName else who.accountSubject)
  {
    var l := Lower(op);
    assert l[|l| - 1] == ')' && op[|op| - 1] == ')';
    assert !IsSpace(op[0]) by { assert 'a' <= l[0] <= 'z'; }
    BracesComeOff(pad, op, pad');
  }

  /** Spelled in another case, the name of a tag operation stays in front of the prefix:
      it then looks for tags that nobody would write. */
  lemma TagKeepsItsCase(who: Who, pad: string, name: string, arg: string, pad': string)
    requires Blank(pad) && Blank(pad') && Lower(name) == "tag("
    ensures OpOf(who, Braced(pad, name + (arg + ")"), pad'))
            == Tag((if name == "tag(" then Lower(arg) else "tag(" + Lower(arg)) + ":", false)
  {
    hide OpNamed, Braced, Trim, Blank;
    var op := name + (arg + ")");
    assert |name| == |Lower(name)| == 4;
    assert op[0] == name[0] && Lower(name)[0] == 't' && op[|op| - 1] == ')';
    BracesComeOff(pad, op, pad');
    if name == "tag(" { UserTagNamed(who, arg); } else { OtherCaseNamed(who, name, arg); }
  }

  lemma OtherCaseNamed(who: Who, name: string, arg: string)
    requires Lower(name) == "tag(" && name != "tag("
    ensures OpNamed(who, name + (arg + ")")) == Tag("tag(" + Lower(arg) + ":", false)
  {
    var op := name + (arg + ")");
    LowerSplits(name, arg + ")");
    NotThePrefix(name, arg + ")");
    assert op[..4] == name && op[|op| - 1..] == ")" && op[..|op| - 1] == name + arg;
    LowerSplits(name, arg);
    assert Lower(op)[0] == 't' && Lower(op)[1] == 'a';
    hide Lower;
    assert Calls(op, "tag(") && Argument(op, "tag(") == name + arg;
  }

  lemma LowerSplits(a: string, b: string)
    ensures Lower(a + b) == Lower(a) + Lower(b) && |Lower(a)| == |a|
  {
  }

  lemma NotThePrefix(name: string, rest: string)
    requires |Lower(name)| == 4 && name != "tag("
    ensures !("tag(" <= name + rest)
  {
    assert (name + rest)[..4] == name;
  }

  // ---------- Putting values into a subject ----------

  /** `strings.Replace` of all occurrences, from left to right. */
  function ReplaceAll(s: string, m: string, v: string): string
    requires m != ""
    decreases |s|
  {
    if s == "" then "" else if m <= s then v + ReplaceAll(s[|m|..], m, v) else [s[0]] + ReplaceAll(s[1..], m, v)
  }

  /** A subject in pieces: text without braces, and templates. */
  datatype Piece = Lit(text: string) | Hole(src: string)

  function TextOf(ps: seq<Piece>): string {
    if ps == [] then "" else (if ps[0].Lit? then ps[0].text else ps[0].src) + TextOf(ps[1..])
  }

  /** A template is text without braces between double braces. */
  predicate Marker(m: string) {
    && |m| >= 5 && m[0] == '{' && m[1] == '{' && m[|m| - 2] == '}' && m[|m| - 1] == '}'
    && forall i :: 2 <= i < |m| - 2 ==> m[i] != '{' && m[i] != '}'
  }

  predicate PieceOk(p: Piece) { if p.Lit? then '{' !in p.text else Marker(p.src) }

  predicate PiecesOk(ps: seq<Piece>) { forall k :: 0 <= k < |ps| ==> PieceOk(ps[k]) }

  lemma {:induction false} PassesOver(t: string, rest: string, m: string, v: string)
    requires '{' !in t && Marker(m)
    ensures ReplaceAll(t + rest, m, v) == t + ReplaceAll(rest, m, v)
    decreases |t|
  {
    if t == "" {
      assert t + rest == rest;
    } else {
      var s := t + rest;
      assert s[0] == t[0] && s[1..] == t[1..] + rest;
      PrefixRune(m, s, 0);
      PassesOver(t[1..], rest, m, v);
      assert [t[0]] + (t[1..] + ReplaceAll(rest, m, v)) == t + ReplaceAll(rest, m, v);
    }
  }

  /** A template is no start of a text that begins with another one. */
  lemma OthersDiffer(m: string, x: string, rest: string)
    requires Marker(m) && Marker(x) && m != x
    ensures !(m <= x + rest)
  {
    if |m| < |x| {
      PrefixAgrees(m, x, rest, |m| - 2);
    } else if |x| < |m| {
      PrefixAgrees(m, x, rest, |x| - 2);
    } else {
      var i :| 0 <= i < |m| && m[i] != x[i];
      PrefixAgrees(m, x, rest, i);
    }
  }

  lemma PrefixRune(m: string, s: string, i: nat)
    requires i < |m| && i < |s|
    ensures m <= s ==> m[i] == s[i]
  {
  }

  lemma PrefixAgrees(m: string, x: string, rest: string, i: nat)
    requires i < |m| && i < |x|
    ensures m <= x + rest ==> m[i] == x[i]
  {
    assert (x + rest)[i] == x[i];
  }

  lemma SkipsOthers(x: string, rest: string, m: string, v: string)
    requires Marker(m) && Marker(x) && m != x
    ensures ReplaceAll(x + rest, m, v) == x + ReplaceAll(rest, m, v)
  {
    OthersDiffer(m, x, rest);
    var s, t := x + rest, x[1..] + rest;
    assert s[0] == x[0] && s[1..] == t && t != "";
    PrefixRune(m, t, 1);
    assert t[1] == x[2];
    assert t[0] == x[1] && t[1..] == x[2..] + rest;
    assert '{' !in x[2..];
    PassesOver(x[2..], rest, m, v);
    assert [x[0]] + ([x[1]] + (x[2..] + ReplaceAll(rest, m, v))) == x + ReplaceAll(rest, m, v);
  }

  function Substitute(ps: seq<Piece>, m: string, v: string): (r: seq<Piece>)
    ensures |r| == |ps|
    ensures forall k :: 0 <= k < |ps| ==> r[k] == if ps[k] == Hole(m) then Lit(v) else ps[k]
  {
    if ps == [] then [] else [if ps[0] == Hole(m) then Lit(v) else ps[0]] + Substitute(ps[1..], m, v)
  }

  lemma {:induction false} ReplacePieces(ps: seq<Piece>, m: string, v: string)
    requires PiecesOk(ps) && Marker(m)
    ensures ReplaceAll(TextOf(ps), m, v) == TextOf(Substitute(ps, m, v))
    decreases |ps|
  {
    hide ReplaceAll, Marker;
    if ps == [] {
      EmptyStays(m, v);
    } else {
      assert PieceOk(ps[0]);
      assert PiecesOk(ps[1..]) by { assert forall k :: 0 <= k < |ps| - 1 ==> ps[1..][k] == ps[k + 1]; }
      ReplacePieces(ps[1..], m, v);
      var rest := TextOf(ps[1..]);
      var first := if ps[0] == Hole(m) then Lit(v) else ps[0];
      assert Substitute(ps, m, v)[0] == first && Substitute(ps, m, v)[1..] == Substitute(ps[1..], m, v);
      if ps[0].Lit? {
        PassesOver(ps[0].text, rest, m, v);
      } else if ps[0].src == m {
        ReplacesFirst(m, rest, v);
      } else {
        SkipsOthers(ps[0].src, rest, m, v);
      }
    }
  }

  lemma EmptyStays(m: string, v: string)
    requires Marker(m)
    ensures ReplaceAll("", m, v) == ""
  {
  }

  lemma ReplacesFirst(m: string, rest: string, v: string)
    requires Marker(m)
    ensures ReplaceAll(m + rest, m, v) == v + ReplaceAll(rest, m, v)
  {
    assert m <= m + rest && (m + rest)[|m|..] == rest;
  }

  /** The first of the template texts that is `x`, or their number. */
  function FirstOf(srcs: seq<string>, x: string): (i: nat)
    ensures i <= |srcs| && (i < |srcs| ==> srcs[i] == x) && forall j :: 0 <= j < i ==> srcs[j] != x
  {
    if srcs == [] || srcs[0] == x then 0 else 1 + FirstOf(srcs[1..], x)
  }

  /** Every template gets the value of the first token with its text. */
  function Filled(ps: seq<Piece>, srcs: seq<string>, row: seq<string>): (r: seq<Piece>)
    requires |srcs| == |row|
    ensures |r| == |ps|
  {
    seq(|ps|, k requires 0 <= k < |ps| =>
      if ps[k].Hole? && FirstOf(srcs, ps[k].src) < |srcs| then Lit(row[FirstOf(srcs, ps[k].src)]) else ps[k])
  }

  ghost predicate ReplacesText(rules: Rules) { forall s, m, v :: m != "" ==> rules.replace(s, m, v) == ReplaceAll(s, m, v) }

  /** Filling a subject with a row of values puts into each template the value of the
      first token of the same text, and leaves everything else as it is. */
  lemma {:induction false} SubjectIsFilled(rules: Rules, ps: seq<Piece>, srcs: seq<string>, row: seq<string>)
    requires ReplacesText(rules) && PiecesOk(ps) && |srcs| == |row|
    requires (forall i :: 0 <= i < |srcs| ==> Marker(srcs[i])) && (forall i :: 0 <= i < |row| ==> '{' !in row[i])
    ensures Fill(rules, TextOf(ps), srcs, row) == TextOf(Filled(ps, srcs, row))
    decreases |srcs|
  {
    hide Marker, ReplaceAll, TextOf;
    if srcs == [] {
      assert Filled(ps, srcs, row) == ps;
    } else {
      var m, v := srcs[0], row[0];
      assert m != "" by { MarkerHasText(m); }
      ReplacePieces(ps, m, v);
      var qs := Substitute(ps, m, v);
      assert PiecesOk(qs);
      SubjectIsFilled(rules, qs, srcs[1..], row[1..]);
      forall k | 0 <= k < |ps| ensures Filled(qs, srcs[1..], row[1..])[k] == Filled(ps, srcs, row)[k] {
      }
      assert Filled(qs, srcs[1..], row[1..]) == Filled(ps, srcs, row);
    }
  }

  lemma MarkerHasText(m: string)
    requires Marker(m)
    ensures m != ""
  {
  }

  /** A template that is repeated in a subject does not get a value of its own: rows that
      differ in such a place only give the same subject again. */
  lemma RepeatedTemplateRepeats(rules: Rules, ps: seq<Piece>, srcs: seq<string>, row: seq<string>, i: nat, j: nat, v: string)
    requires ReplacesText(rules) && PiecesOk(ps) && |srcs| == |row| && i < j < |srcs| && srcs[i] == srcs[j] && '{' !in v
    requires (forall n :: 0 <= n < |srcs| ==> Marker(srcs[n])) && (forall n :: 0 <= n < |row| ==> '{' !in row[n])
    ensures Fill(rules, TextOf(ps), srcs, row[j := v]) == Fill(rules, TextOf(ps), srcs, row)
  {
    hide Marker, ReplaceAll, TextOf, ReplacesText, Fill;
    SubjectIsFilled(rules, ps, srcs, row);
    SubjectIsFilled(rules, ps, srcs, row[j := v]);
    forall x ensures FirstOf(srcs, x) != j {
    }
    assert Filled(ps, srcs, row[j := v]) == Filled(ps, srcs, row);
  }
}
