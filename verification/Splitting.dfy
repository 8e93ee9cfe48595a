/** Splitting text at separators and joining it again. */
module Splitting {

  function Is(c: char): char -> bool { x => x == c }

  /** `strings.Split` at the runes that satisfy `p`: the pieces between them, of
      which there is always one. */
  function Split(s: string, p: char -> bool): (r: seq<string>)
    ensures r != []
  {
    if s == "" then [""]
    else
      var rest := Split(s[1..], p);
      if p(s[0]) then [""] + rest else [[s[0]] + rest[0]] + rest[1..]
  }

  /** `strings.Join` with a one-rune separator. */
  function Join(parts: seq<string>, sep: char): string {
    if parts == [] then "" else if |parts| == 1 then parts[0] else parts[0] + ([sep] + Join(parts[1..], sep))
  }

  predicate Free(s: string, p: char -> bool) { forall i :: 0 <= i < |s| ==> !p(s[i]) }

  lemma {:induction false} SplitOne(s: string, p: char -> bool)
    requires Free(s, p)
    ensures Split(s, p) == [s]
    decreases |s|
  {
    if s != "" {
      SplitOne(s[1..], p);
      assert [s[0]] + s[1..] == s;
    }
  }

  lemma {:induction false} SplitMore(s: string, c: char, rest: string, p: char -> bool)
    requires Free(s, p) && p(c)
    ensures Split(s + ([c] + rest), p) == [s] + Split(rest, p)
    decreases |s|
  {
    if s == "" {
      assert s + ([c] + rest) == [c] + rest && ([c] + rest)[1..] == rest;
    } else {
      assert (s + ([c] + rest))[1..] == s[1..] + ([c] + rest);
      SplitMore(s[1..], c, rest, p);
      assert [s[0]] + s[1..] == s;
    }
  }

  /** Splitting undoes joining when no part holds a separator. */
  lemma {:induction false} SplitJoin(parts: seq<string>, c: char, p: char -> bool)
    requires parts != [] && p(c) && forall i :: 0 <= i < |parts| ==> Free(parts[i], p)
    ensures Split(Join(parts, c), p) == parts
    decreases |parts|
  {
    if |parts| == 1 {
      SplitOne(parts[0], p);
    } else {
      SplitMore(parts[0], c, Join(parts[1..], c), p);
      SplitJoin(parts[1..], c, p);
    }
  }
}
