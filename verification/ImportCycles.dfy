/** The search for cycles of service imports. Subject matching is a parameter. */
module ImportCycles {

  const MAX_DEPTH := 1024

  /** A service import of an account: requests on `from` go to `to` of `acc`. */
  datatype Import = Import(acc: string, from: string, to: string)

  /** Every account's imports, in the order a walk over them happens to take. */
  datatype World = World(imports: map<string, seq<Import>>,
                         collide: (string, string) -> bool,
                         subset: (string, string) -> bool)

  function ImportsOf(w: World, a: string): seq<Import> {
    if a in w.imports then w.imports[a] else []
  }

  /** The subject to look for in the next account: narrowed to what the import
      takes. */
  function Narrow(w: World, subject: string, si: Import): string {
    if w.subset(si.from, subject) then si.from else subject
  }

  datatype Result = Clear | FormsCycle | TooDeep

  /** The result of a search and the accounts it has marked. */
  datatype Found = Found(result: Result, visited: set<string>)

  // ---------- The search ----------

  function Search(w: World, a: string, subject: string, visited: set<string>): (f: Found)
    ensures visited <= f.visited
    decreases |w.imports.Keys - visited|, if a in visited then 1 else 0, |ImportsOf(w, a)| + 1
  {
    if |visited| >= MAX_DEPTH then Found(TooDeep, visited) else SearchFrom(w, a, subject, visited, 0)
  }

  /** The search over the imports of `a` from the `i`-th on. */
  function SearchFrom(w: World, a: string, subject: string, visited: set<string>, i: nat): (f: Found)
    requires i <= |ImportsOf(w, a)|
    ensures visited <= f.visited
    decreases |w.imports.Keys - visited|, if a in visited then 1 else 0, |ImportsOf(w, a)| - i
  {
    if i == |ImportsOf(w, a)| then Found(Clear, visited)
    else
      var si := ImportsOf(w, a)[i];
      if !w.collide(subject, si.to) then SearchFrom(w, a, subject, visited, i + 1)
      else if si.acc in visited then Found(FormsCycle, visited)
      else
        MarkingShrinks(w, a, visited, visited + {a});
        var f := Search(w, si.acc, Narrow(w, subject, si), visited + {a});
        if !f.result.Clear? then f
        else
          MarkingShrinks(w, a, visited, f.visited);
          SearchFrom(w, a, subject, f.visited, i + 1)
  }

  lemma MarkingShrinks(w: World, a: string, visited: set<string>, more: set<string>)
    requires visited + {a} <= more
    ensures |w.imports.Keys - more| <= |w.imports.Keys - visited|
    ensures a in w.imports && a !in visited ==> |w.imports.Keys - more| < |w.imports.Keys - visited|
  {
    var left, was := w.imports.Keys - more, w.imports.Keys - visited;
    assert was == left + (was - left);
    if a in w.imports && a !in visited {
      assert a in was - left;
    }
  }

  /** The search as the source runs it: one shared set of marks, a loop over the
      imports and a recursive call. */
  method Check(w: World, a: string, subject: string, marks: set<string>) returns (r: Result, visited: set<string>)
    ensures Search(w, a, subject, marks) == Found(r, visited)
    decreases |w.imports.Keys - marks|, if a in marks then 1 else 0
  {
    visited := marks;
    if |visited| >= MAX_DEPTH {
      return TooDeep, visited;
    }
    var sis := ImportsOf(w, a);
    for i := 0 to |sis|
      invariant marks <= visited && SearchFrom(w, a, subject, visited, i) == Search(w, a, subject, marks)
    {
      var si := sis[i];
      if w.collide(subject, si.to) {
        if si.acc in visited {
          return FormsCycle, visited;
        }
        MarkingShrinks(w, a, marks, visited + {a});
        SameMarks(w, marks, visited);
        r, visited := Check(w, si.acc, Narrow(w, subject, si), visited + {a});
        if !r.Clear? {
          return r, visited;
        }
      }
    }
    r := Clear;
  }

  lemma SameMarks(w: World, marks: set<string>, visited: set<string>)
    requires marks <= visited
    ensures |w.imports.Keys - visited| <= |w.imports.Keys - marks|
  {
    var left, was := w.imports.Keys - visited, w.imports.Keys - marks;
    assert was == left + (was - left);
  }

  // ---------- What a clear search means ----------

  /** A chain of imports from `a`, as positions in each account's list: every
      import takes requests that the one before it sends on. */
  predicate Chain(w: World, a: string, subject: string, path: seq<nat>)
    decreases |path|
  {
    path == [] ||
    (&& path[0] < |ImportsOf(w, a)|
     && (var si := ImportsOf(w, a)[path[0]];
         w.collide(subject, si.to) && Chain(w, si.acc, Narrow(w, subject, si), path[1..])))
  }

  /** The account that a chain ends in. */
  function End(w: World, a: string, subject: string, path: seq<nat>): string
    requires Chain(w, a, subject, path)
    decreases |path|
  {
    if path == [] then a
    else
      var si := ImportsOf(w, a)[path[0]];
      End(w, si.acc, Narrow(w, subject, si), path[1..])
  }

  /** The account whose import is the last of a chain. */
  function Start(w: World, a: string, subject: string, path: seq<nat>): string
    requires Chain(w, a, subject, path) && path != []
    decreases |path|
  {
    if |path| == 1 then a
    else
      var si := ImportsOf(w, a)[path[0]];
      Start(w, si.acc, Narrow(w, subject, si), path[1..])
  }

  /** Chains are walked through in this order: a chain before its continuations,
      and these in the order of the imports. */
  predicate Before(r: seq<nat>, q: seq<nat>) {
    q != [] && (r == [] || r[0] < q[0] || (r[0] == q[0] && Before(r[1..], q[1..])))
  }

  /** A chain from `a` whose first import is the `i`-th or later. */
  predicate ChainFrom(w: World, a: string, subject: string, i: nat, path: seq<nat>) {
    path != [] && i <= path[0] && Chain(w, a, subject, path)
  }

  /** The chain `q` ends in an account that an earlier chain `r` left by an
      import. */
  predicate Crosses(w: World, a: string, subject: string, i: nat, r: seq<nat>, q: seq<nat>) {
    && ChainFrom(w, a, subject, i, r) && ChainFrom(w, a, subject, i, q)
    && Before(r, q) && Start(w, a, subject, r) == End(w, a, subject, q)
  }

  /** Some chain ends in a marked account. */
  ghost predicate Returns(w: World, a: string, subject: string, marks: set<string>, i: nat) {
    exists q :: ChainFrom(w, a, subject, i, q) && End(w, a, subject, q) in marks
  }

  /** Some chain ends in an account that another one has left before. */
  ghost predicate Meet(w: World, a: string, subject: string, i: nat) {
    exists r, q :: Crosses(w, a, subject, i, r, q)
  }

  ghost predicate Left(w: World, a: string, subject: string, i: nat, x: string) {
    exists r :: ChainFrom(w, a, subject, i, r) && Start(w, a, subject, r) == x
  }

  /** What a search without regard to depth comes to: a cycle is reported exactly
      when a chain ends in a marked account or in one left before, and a clear
      search has marked exactly the accounts that chains have left. */
  ghost predicate Exact(w: World, a: string, subject: string, marks: set<string>, i: nat, f: Found) {
    && (f.result.FormsCycle? ==> Returns(w, a, subject, marks, i) || Meet(w, a, subject, i))
    && (f.result.Clear? ==> !Returns(w, a, subject, marks, i) && !Meet(w, a, subject, i))
    && (f.result.Clear? ==> forall x :: x in f.visited <==> x in marks || Left(w, a, subject, i, x))
  }

  /** An import goes first in the chains through it. */
  lemma ThroughImport(w: World, a: string, subject: string, i: nat, q: seq<nat>)
    requires i < |ImportsOf(w, a)| && w.collide(subject, ImportsOf(w, a)[i].to)
    ensures var si := ImportsOf(w, a)[i];
            var s' := Narrow(w, subject, si);
            && (Chain(w, si.acc, s', q) <==> Chain(w, a, subject, [i] + q))
            && (Chain(w, si.acc, s', q) ==> End(w, a, subject, [i] + q) == End(w, si.acc, s', q))
            && (Chain(w, si.acc, s', q) && q != [] ==> Start(w, a, subject, [i] + q) == Start(w, si.acc, s', q))
            && (Chain(w, si.acc, s', q) && q == [] ==> Start(w, a, subject, [i] + q) == a)
  {
    assert ([i] + q)[1..] == q;
  }

  /** A chain of the imports from the `i`-th on is the `i`-th import followed by a
      chain, or starts later. */
  lemma FirstOrLater(w: World, a: string, subject: string, i: nat, q: seq<nat>) returns (rest: seq<nat>)
    requires ChainFrom(w, a, subject, i, q)
    ensures i < |ImportsOf(w, a)|
    ensures ChainFrom(w, a, subject, i + 1, q) || (q == [i] + rest && w.collide(subject, ImportsOf(w, a)[i].to))
  {
    rest := q[1..];
    if q[0] == i { assert q == [i] + rest; }
  }

  lemma LaterIsFrom(w: World, a: string, subject: string, i: nat, q: seq<nat>)
    requires ChainFrom(w, a, subject, i + 1, q)
    ensures ChainFrom(w, a, subject, i, q) && Before([i], q) && forall r :: Before([i] + r, q)
  {
    forall r ensures Before([i] + r, q) {
      assert ([i] + r)[0] < q[0];
    }
  }

  lemma BeforeThrough(i: nat, r: seq<nat>, q: seq<nat>)
    ensures Before([i] + r, [i] + q) <==> Before(r, q)
    ensures !Before([i] + r, [i])
  {
    assert ([i] + r)[1..] == r && ([i] + q)[1..] == q && [i][1..] == [];
  }

  /** A cycle reported below an import is one of the chains through it. */
  lemma CycleBelow(w: World, a: string, subject: string, marks: set<string>, i: nat, g: Found)
    requires i < |ImportsOf(w, a)| && w.collide(subject, ImportsOf(w, a)[i].to) && g.result.FormsCycle?
    requires Exact(w, ImportsOf(w, a)[i].acc, Narrow(w, subject, ImportsOf(w, a)[i]), marks + {a}, 0, g)
    ensures Returns(w, a, subject, marks, i) || Meet(w, a, subject, i)
  {
    var si := ImportsOf(w, a)[i];
    var s' := Narrow(w, subject, si);
    if Returns(w, si.acc, s', marks + {a}, 0) {
      var q :| ChainFrom(w, si.acc, s', 0, q) && End(w, si.acc, s', q) in marks + {a};
      ThroughImport(w, a, subject, i, q);
      ThroughImport(w, a, subject, i, []);
      assert [i] + [] == [i];
      BeforeThrough(i, [], q);
      assert ChainFrom(w, a, subject, i, [i] + q);
      if End(w, si.acc, s', q) == a { assert Crosses(w, a, subject, i, [i], [i] + q); }
    } else {
      var r, q :| Crosses(w, si.acc, s', 0, r, q);
      ThroughImport(w, a, subject, i, q);
      ThroughImport(w, a, subject, i, r);
      BeforeThrough(i, r, q);
      assert Crosses(w, a, subject, i, [i] + r, [i] + q);
    }
  }

  /** A cycle reported at a later import is one of the chains from it, or crosses
      a chain through an earlier import. */
  lemma CycleLater(w: World, a: string, subject: string, marks: set<string>, i: nat, g: Found, h: Found)
    requires i < |ImportsOf(w, a)| && w.collide(subject, ImportsOf(w, a)[i].to) && g.result.Clear? && h.result.FormsCycle?
    requires Exact(w, ImportsOf(w, a)[i].acc, Narrow(w, subject, ImportsOf(w, a)[i]), marks + {a}, 0, g)
    requires Exact(w, a, subject, g.visited, i + 1, h)
    ensures Returns(w, a, subject, marks, i) || Meet(w, a, subject, i)
  {
    var si := ImportsOf(w, a)[i];
    var s' := Narrow(w, subject, si);
    if Returns(w, a, subject, g.visited, i + 1) {
      var q :| ChainFrom(w, a, subject, i + 1, q) && End(w, a, subject, q) in g.visited;
      var x := End(w, a, subject, q);
      LaterIsFrom(w, a, subject, i, q);
      if x !in marks {
        ThroughImport(w, a, subject, i, []);
        assert [i] + [] == [i];
        if x == a {
          assert Crosses(w, a, subject, i, [i], q);
        } else {
          assert Left(w, si.acc, s', 0, x);
          var r :| ChainFrom(w, si.acc, s', 0, r) && Start(w, si.acc, s', r) == x;
          ThroughImport(w, a, subject, i, r);
          assert Crosses(w, a, subject, i, [i] + r, q);
        }
      }
    } else {
      var r, q :| Crosses(w, a, subject, i + 1, r, q);
      LaterIsFrom(w, a, subject, i, q);
      LaterIsFrom(w, a, subject, i, r);
      assert Crosses(w, a, subject, i, r, q);
    }
  }

  /** Below a clear import no chain through it returns, and what it leaves is marked. */
  lemma ClearBelow(w: World, a: string, subject: string, marks: set<string>, i: nat, g: Found, r: seq<nat>)
    requires i < |ImportsOf(w, a)| && w.collide(subject, ImportsOf(w, a)[i].to) && g.result.Clear?
    requires ImportsOf(w, a)[i].acc !in marks
    requires Exact(w, ImportsOf(w, a)[i].acc, Narrow(w, subject, ImportsOf(w, a)[i]), marks + {a}, 0, g)
    requires Chain(w, a, subject, [i] + r)
    ensures End(w, a, subject, [i] + r) !in marks && (r != [] ==> End(w, a, subject, [i] + r) != a)
    ensures Start(w, a, subject, [i] + r) in g.visited && a in g.visited && marks <= g.visited
  {
    var si := ImportsOf(w, a)[i];
    var s' := Narrow(w, subject, si);
    ThroughImport(w, a, subject, i, r);
    if r != [] {
      assert ChainFrom(w, si.acc, s', 0, r);
      assert Left(w, si.acc, s', 0, Start(w, si.acc, s', r));
    }
    forall x | x in marks ensures x in g.visited { assert x in marks + {a}; }
    assert a in marks + {a};
  }

  /** When an import and the later ones are clear, nothing returns or meets. */
  lemma ClearBoth(w: World, a: string, subject: string, marks: set<string>, i: nat, g: Found, h: Found)
    requires i < |ImportsOf(w, a)| && w.collide(subject, ImportsOf(w, a)[i].to) && g.result.Clear? && h.result.Clear?
    requires ImportsOf(w, a)[i].acc !in marks
    requires Exact(w, ImportsOf(w, a)[i].acc, Narrow(w, subject, ImportsOf(w, a)[i]), marks + {a}, 0, g)
    requires Exact(w, a, subject, g.visited, i + 1, h)
    ensures !Returns(w, a, subject, marks, i) && !Meet(w, a, subject, i)
  {
    hide Exact;
    forall q | ChainFrom(w, a, subject, i, q) ensures End(w, a, subject, q) !in marks {
      NothingReturns(w, a, subject, marks, i, g, h, q);
    }
    forall r, q | ChainFrom(w, a, subject, i, r) && ChainFrom(w, a, subject, i, q) && Before(r, q)
      ensures Start(w, a, subject, r) != End(w, a, subject, q)
    {
      NothingMeets(w, a, subject, marks, i, g, h, r, q);
    }
  }

  lemma NothingReturns(w: World, a: string, subject: string, marks: set<string>, i: nat, g: Found, h: Found, q: seq<nat>)
    requires i < |ImportsOf(w, a)| && w.collide(subject, ImportsOf(w, a)[i].to) && g.result.Clear? && h.result.Clear?
    requires ImportsOf(w, a)[i].acc !in marks
    requires Exact(w, ImportsOf(w, a)[i].acc, Narrow(w, subject, ImportsOf(w, a)[i]), marks + {a}, 0, g)
    requires Exact(w, a, subject, g.visited, i + 1, h) && ChainFrom(w, a, subject, i, q)
    ensures End(w, a, subject, q) !in marks
  {
    var rest := FirstOrLater(w, a, subject, i, q);
    if ChainFrom(w, a, subject, i + 1, q) {
      ThroughImport(w, a, subject, i, []);
      ClearBelow(w, a, subject, marks, i, g, []);
    } else {
      ClearBelow(w, a, subject, marks, i, g, rest);
    }
  }

  lemma NothingMeets(w: World, a: string, subject: string, marks: set<string>, i: nat, g: Found, h: Found, r: seq<nat>, q: seq<nat>)
    requires i < |ImportsOf(w, a)| && w.collide(subject, ImportsOf(w, a)[i].to) && g.result.Clear? && h.result.Clear?
    requires ImportsOf(w, a)[i].acc !in marks
    requires Exact(w, ImportsOf(w, a)[i].acc, Narrow(w, subject, ImportsOf(w, a)[i]), marks + {a}, 0, g)
    requires Exact(w, a, subject, g.visited, i + 1, h)
    requires ChainFrom(w, a, subject, i, r) && ChainFrom(w, a, subject, i, q) && Before(r, q)
    ensures Start(w, a, subject, r) != End(w, a, subject, q)
  {
    var si := ImportsOf(w, a)[i];
    var s' := Narrow(w, subject, si);
    var r' := FirstOrLater(w, a, subject, i, r);
    var q' := FirstOrLater(w, a, subject, i, q);
    if ChainFrom(w, a, subject, i + 1, q) {
      if ChainFrom(w, a, subject, i + 1, r) {
        assert !Crosses(w, a, subject, i + 1, r, q);
      } else {
        ClearBelow(w, a, subject, marks, i, g, r');
      }
    } else {
      BeforeThrough(i, r', q');
      ClearBelow(w, a, subject, marks, i, g, q');
      ThroughImport(w, a, subject, i, q');
      ThroughImport(w, a, subject, i, r');
      if r' != [] { assert !Crosses(w, si.acc, s', 0, r', q'); }
    }
  }

  /** What has been marked after an import and the later ones. */
  lemma MarkedByBoth(w: World, a: string, subject: string, marks: set<string>, i: nat, g: Found, h: Found, x: string)
    requires i < |ImportsOf(w, a)| && w.collide(subject, ImportsOf(w, a)[i].to) && g.result.Clear? && h.result.Clear?
    requires ImportsOf(w, a)[i].acc !in marks
    requires Exact(w, ImportsOf(w, a)[i].acc, Narrow(w, subject, ImportsOf(w, a)[i]), marks + {a}, 0, g)
    requires Exact(w, a, subject, g.visited, i + 1, h)
    ensures x in h.visited <==> x in marks || Left(w, a, subject, i, x)
  {
    var si := ImportsOf(w, a)[i];
    var s' := Narrow(w, subject, si);
    ThroughImport(w, a, subject, i, []);
    assert [i] + [] == [i] && ChainFrom(w, a, subject, i, [i]);
    ClearBelow(w, a, subject, marks, i, g, []);
    if x in h.visited && x !in marks && x != a {
      if x in g.visited {
        var r :| ChainFrom(w, si.acc, s', 0, r) && Start(w, si.acc, s', r) == x;
        ThroughImport(w, a, subject, i, r);
        assert ChainFrom(w, a, subject, i, [i] + r);
      } else {
        var r :| ChainFrom(w, a, subject, i + 1, r) && Start(w, a, subject, r) == x;
        LaterIsFrom(w, a, subject, i, r);
      }
    }
    if Left(w, a, subject, i, x) {
      var r :| ChainFrom(w, a, subject, i, r) && Start(w, a, subject, r) == x;
      var r' := FirstOrLater(w, a, subject, i, r);
      if ChainFrom(w, a, subject, i + 1, r) {
        assert Left(w, a, subject, i + 1, x);
      } else {
        ClearBelow(w, a, subject, marks, i, g, r');
      }
    }
  }

  lemma {:induction false} SearchFromIsExact(w: World, a: string, subject: string, marks: set<string>, i: nat)
    requires i <= |ImportsOf(w, a)|
    ensures Exact(w, a, subject, marks, i, SearchFrom(w, a, subject, marks, i))
    decreases |w.imports.Keys - marks|, if a in marks then 1 else 0, |ImportsOf(w, a)| - i
  {
    hide Exact;
    if i == |ImportsOf(w, a)| {
      NoImportLeft(w, a, subject, marks, i);
    } else {
      var si := ImportsOf(w, a)[i];
      if !w.collide(subject, si.to) {
        SearchFromIsExact(w, a, subject, marks, i + 1);
        SkippedImport(w, a, subject, marks, i, SearchFrom(w, a, subject, marks, i + 1));
      } else if si.acc in marks {
        MarkedImport(w, a, subject, marks, i);
      } else {
        MarkingShrinks(w, a, marks, marks + {a});
        SearchIsExact(w, si.acc, Narrow(w, subject, si), marks + {a});
        var g := Search(w, si.acc, Narrow(w, subject, si), marks + {a});
        if g.result.Clear? {
          MarkingShrinks(w, a, marks, g.visited);
          SearchFromIsExact(w, a, subject, g.visited, i + 1);
        }
        Combined(w, a, subject, marks, i, g);
      }
    }
  }

  lemma NoImportLeft(w: World, a: string, subject: string, marks: set<string>, i: nat)
    requires i == |ImportsOf(w, a)|
    ensures Exact(w, a, subject, marks, i, Found(Clear, marks))
  {
    forall q ensures !ChainFrom(w, a, subject, i, q) {}
  }

  lemma SkippedImport(w: World, a: string, subject: string, marks: set<string>, i: nat, f: Found)
    requires i < |ImportsOf(w, a)| && !w.collide(subject, ImportsOf(w, a)[i].to)
    requires Exact(w, a, subject, marks, i + 1, f)
    ensures Exact(w, a, subject, marks, i, f)
  {
    assert forall q :: ChainFrom(w, a, subject, i, q) <==> ChainFrom(w, a, subject, i + 1, q);
    assert forall r, q :: Crosses(w, a, subject, i, r, q) <==> Crosses(w, a, subject, i + 1, r, q);
    assert forall x :: Left(w, a, subject, i, x) <==> Left(w, a, subject, i + 1, x);
    if r, q :| Crosses(w, a, subject, i, r, q) { assert Crosses(w, a, subject, i + 1, r, q); }
    if Meet(w, a, subject, i + 1) {
      var r, q :| Crosses(w, a, subject, i + 1, r, q);
      assert Crosses(w, a, subject, i, r, q);
    }
    assert Returns(w, a, subject, marks, i) <==> Returns(w, a, subject, marks, i + 1);
  }

  lemma MarkedImport(w: World, a: string, subject: string, marks: set<string>, i: nat)
    requires i < |ImportsOf(w, a)| && w.collide(subject, ImportsOf(w, a)[i].to) && ImportsOf(w, a)[i].acc in marks
    ensures Exact(w, a, subject, marks, i, Found(FormsCycle, marks))
  {
    ThroughImport(w, a, subject, i, []);
    assert [i] + [] == [i] && ChainFrom(w, a, subject, i, [i]);
  }

  lemma Combined(w: World, a: string, subject: string, marks: set<string>, i: nat, g: Found)
    requires i < |ImportsOf(w, a)| && w.collide(subject, ImportsOf(w, a)[i].to) && ImportsOf(w, a)[i].acc !in marks
    requires g == Search(w, ImportsOf(w, a)[i].acc, Narrow(w, subject, ImportsOf(w, a)[i]), marks + {a})
    requires Exact(w, ImportsOf(w, a)[i].acc, Narrow(w, subject, ImportsOf(w, a)[i]), marks + {a}, 0, g)
    requires g.result.Clear? ==> Exact(w, a, subject, g.visited, i + 1, SearchFrom(w, a, subject, g.visited, i + 1))
    ensures Exact(w, a, subject, marks, i, SearchFrom(w, a, subject, marks, i))
  {
    hide Returns, Meet, Left, Search;
    var f := SearchFrom(w, a, subject, marks, i);
    if g.result.FormsCycle? {
      CycleBelow(w, a, subject, marks, i, g);
    } else if g.result.Clear? {
      var h := SearchFrom(w, a, subject, g.visited, i + 1);
      assert f == h;
      if h.result.FormsCycle? {
        CycleLater(w, a, subject, marks, i, g, h);
      } else if h.result.Clear? {
        ClearBoth(w, a, subject, marks, i, g, h);
        forall x ensures x in h.visited <==> x in marks || Left(w, a, subject, i, x) {
          MarkedByBoth(w, a, subject, marks, i, g, h, x);
        }
      }
    }
  }

  lemma {:induction false} SearchIsExact(w: World, a: string, subject: string, marks: set<string>)
    ensures Exact(w, a, subject, marks, 0, Search(w, a, subject, marks))
    decreases |w.imports.Keys - marks|, if a in marks then 1 else 0, |ImportsOf(w, a)| + 1
  {
    if |marks| < MAX_DEPTH { SearchFromIsExact(w, a, subject, marks, 0); }
  }

  // ---------- The bound on depth ----------

  /** The accounts marked at the start and those that chains leave by an import. */
  ghost function Reach(w: World, a: string, subject: string, marks: set<string>): set<string> {
    marks + set x | x in w.imports && Left(w, a, subject, 0, x)
  }

  lemma {:induction false} StartHasImports(w: World, a: string, subject: string, path: seq<nat>)
    requires Chain(w, a, subject, path) && path != []
    ensures Start(w, a, subject, path) in w.imports
    decreases |path|
  {
    if |path| > 1 {
      var si := ImportsOf(w, a)[path[0]];
      StartHasImports(w, si.acc, Narrow(w, subject, si), path[1..]);
    }
  }

  /** A search that ends clear has fewer marks than the bound, one that is too deep
      has not. */
  lemma {:induction false} MarksAtEnd(w: World, a: string, subject: string, marks: set<string>)
    ensures Search(w, a, subject, marks).result.Clear? ==> |Search(w, a, subject, marks).visited| < MAX_DEPTH
    ensures Search(w, a, subject, marks).result.TooDeep? ==> |Search(w, a, subject, marks).visited| >= MAX_DEPTH
    decreases |w.imports.Keys - marks|, if a in marks then 1 else 0, |ImportsOf(w, a)| + 1
  {
    if |marks| < MAX_DEPTH { MarksAtEndFrom(w, a, subject, marks, 0); }
  }

  lemma {:induction false} MarksAtEndFrom(w: World, a: string, subject: string, marks: set<string>, i: nat)
    requires i <= |ImportsOf(w, a)| && |marks| < MAX_DEPTH
    ensures SearchFrom(w, a, subject, marks, i).result.Clear? ==> |SearchFrom(w, a, subject, marks, i).visited| < MAX_DEPTH
    ensures SearchFrom(w, a, subject, marks, i).result.TooDeep? ==> |SearchFrom(w, a, subject, marks, i).visited| >= MAX_DEPTH
    decreases |w.imports.Keys - marks|, if a in marks then 1 else 0, |ImportsOf(w, a)| - i
  {
    hide Search;
    if i < |ImportsOf(w, a)| {
      var si := ImportsOf(w, a)[i];
      if !w.collide(subject, si.to) {
        MarksAtEndFrom(w, a, subject, marks, i + 1);
      } else if si.acc !in marks {
        MarkingShrinks(w, a, marks, marks + {a});
        MarksAtEnd(w, si.acc, Narrow(w, subject, si), marks + {a});
        var g := Search(w, si.acc, Narrow(w, subject, si), marks + {a});
        if g.result.Clear? {
          MarkingShrinks(w, a, marks, g.visited);
          MarksAtEndFrom(w, a, subject, g.visited, i + 1);
        }
      }
    }
  }

  /** However a search ends, what it has marked was marked at the start or left by a
      chain. */
  lemma {:induction false} MarkedWasLeft(w: World, a: string, subject: string, marks: set<string>, x: string)
    requires x in Search(w, a, subject, marks).visited
    ensures x in marks || Left(w, a, subject, 0, x)
    decreases |w.imports.Keys - marks|, if a in marks then 1 else 0, |ImportsOf(w, a)| + 1
  {
    hide Left;
    if |marks| < MAX_DEPTH { MarkedWasLeftFrom(w, a, subject, marks, 0, x); }
  }

  lemma {:induction false} MarkedWasLeftFrom(w: World, a: string, subject: string, marks: set<string>, i: nat, x: string)
    requires i <= |ImportsOf(w, a)| && x in SearchFrom(w, a, subject, marks, i).visited
    ensures x in marks || Left(w, a, subject, i, x)
    decreases |w.imports.Keys - marks|, if a in marks then 1 else 0, |ImportsOf(w, a)| - i
  {
    hide Search, Left;
    if i < |ImportsOf(w, a)| {
      var si := ImportsOf(w, a)[i];
      if !w.collide(subject, si.to) {
        MarkedWasLeftFrom(w, a, subject, marks, i + 1, x);
        LeftLater(w, a, subject, i, x);
      } else if si.acc !in marks {
        MarkingShrinks(w, a, marks, marks + {a});
        var s' := Narrow(w, subject, si);
        var g := Search(w, si.acc, s', marks + {a});
        if g.result.Clear? {
          MarkingShrinks(w, a, marks, g.visited);
          MarkedWasLeftFrom(w, a, subject, g.visited, i + 1, x);
          LeftLater(w, a, subject, i, x);
        }
        if x in g.visited { MarkedWasLeft(w, si.acc, s', marks + {a}, x); }
        LeftThrough(w, a, subject, i, x);
      }
    }
  }

  lemma LeftLater(w: World, a: string, subject: string, i: nat, x: string)
    ensures Left(w, a, subject, i + 1, x) ==> Left(w, a, subject, i, x)
  {
    if Left(w, a, subject, i + 1, x) {
      var r :| ChainFrom(w, a, subject, i + 1, r) && Start(w, a, subject, r) == x;
      assert ChainFrom(w, a, subject, i, r);
    }
  }

  /** What is left below an import, and the account that has it. */
  lemma LeftThrough(w: World, a: string, subject: string, i: nat, x: string)
    requires i < |ImportsOf(w, a)| && w.collide(subject, ImportsOf(w, a)[i].to)
    ensures x == a || Left(w, ImportsOf(w, a)[i].acc, Narrow(w, subject, ImportsOf(w, a)[i]), 0, x) ==> Left(w, a, subject, i, x)
  {
    var si := ImportsOf(w, a)[i];
    var s' := Narrow(w, subject, si);
    ThroughImport(w, a, subject, i, []);
    assert [i] + [] == [i] && ChainFrom(w, a, subject, i, [i]);
    if Left(w, si.acc, s', 0, x) {
      var r :| ChainFrom(w, si.acc, s', 0, r) && Start(w, si.acc, s', r) == x;
      ThroughImport(w, a, subject, i, r);
      assert ChainFrom(w, a, subject, i, [i] + r);
    }
  }

  lemma SubsetSize(a: set<string>, b: set<string>)
    requires a <= b
    ensures |a| <= |b|
  {
    assert b == a + (b - a);
  }

  lemma ReachIsMarked(w: World, a: string, subject: string, marks: set<string>)
    ensures var f := Search(w, a, subject, marks);
            f.visited <= Reach(w, a, subject, marks) && (f.result.Clear? ==> f.visited == Reach(w, a, subject, marks))
  {
    hide Search;
    var f := Search(w, a, subject, marks);
    SearchIsExact(w, a, subject, marks);
    forall x | x in f.visited ensures x in Reach(w, a, subject, marks) {
      MarkedWasLeft(w, a, subject, marks, x);
      if Left(w, a, subject, 0, x) {
        var r :| ChainFrom(w, a, subject, 0, r) && Start(w, a, subject, r) == x;
        StartHasImports(w, a, subject, r);
      }
    }
  }

  /** The search is clear exactly when no chain of imports ends in an account marked at
      the start or in one that a chain walked through earlier has left, and marks and
      accounts left are fewer than the bound. Below the bound it reports a cycle
      exactly when some chain ends so; at the bound and above it reports that or the
      depth. */
  lemma CycleReportIsExact(w: World, a: string, subject: string, marks: set<string>)
    ensures var r := Search(w, a, subject, marks).result;
            var bad := Returns(w, a, subject, marks, 0) || Meet(w, a, subject, 0);
            && (r.Clear? <==> !bad && |Reach(w, a, subject, marks)| < 1024)
            && (!r.TooDeep? ==> (r.FormsCycle? <==> bad))
            && (r.TooDeep? ==> |Reach(w, a, subject, marks)| >= 1024)
    ensures |Reach(w, a, subject, marks)| <= |w.imports.Keys + marks|
  {
    hide Search, Returns, Meet, Reach;
    SearchIsExact(w, a, subject, marks);
    MarksAtEnd(w, a, subject, marks);
    ReachIsMarked(w, a, subject, marks);
    SubsetSize(Search(w, a, subject, marks).visited, Reach(w, a, subject, marks));
    ReachIsKnown(w, a, subject, marks);
  }

  lemma ReachIsKnown(w: World, a: string, subject: string, marks: set<string>)
    ensures |Reach(w, a, subject, marks)| <= |w.imports.Keys + marks|
  {
    SubsetSize(Reach(w, a, subject, marks), w.imports.Keys + marks);
  }

  /** On fewer accounts than the bound, marked ones included, depth is never
      reported. */
  lemma SmallWorldIsDecided(w: World, a: string, subject: string, marks: set<string>)
    requires |w.imports.Keys + marks| < 1024
    ensures var r := Search(w, a, subject, marks).result;
            && !r.TooDeep?
            && (r.Clear? <==> !Returns(w, a, subject, marks, 0) && !Meet(w, a, subject, 0))
  {
    hide Search, Returns, Meet, Reach;
    CycleReportIsExact(w, a, subject, marks);
  }

  // ---------- Chains written out ----------

  /** A route through accounts with the subject that is asked for in each: every account
      has an import that takes requests on its subject and leads to the next account.
      There the subject is what the import takes, if that is part of it, and otherwise
      stays. */
  predicate Route(w: World, accs: seq<string>, subs: seq<string>, path: seq<nat>) {
    && |accs| == |subs| == |path| + 1
    && forall i :: 0 <= i < |path| ==> Hop(w, accs[i], subs[i], path[i], accs[i + 1], subs[i + 1])
  }

  predicate Hop(w: World, acc: string, sub: string, i: nat, acc': string, sub': string) {
    && acc in w.imports && i < |w.imports[acc]|
    && var si := w.imports[acc][i];
    && w.collide(sub, si.to) && acc' == si.acc
    && (w.subset(si.from, sub) ==> sub' == si.from) && (!w.subset(si.from, sub) ==> sub' == sub)
  }

  /** A route is a chain that ends where it ends. */
  lemma {:induction false} RouteIsChain(w: World, accs: seq<string>, subs: seq<string>, path: seq<nat>)
    requires Route(w, accs, subs, path)
    ensures Chain(w, accs[0], subs[0], path) && End(w, accs[0], subs[0], path) == accs[|path|]
    decreases |path|
  {
    if path != [] {
      assert Hop(w, accs[0], subs[0], path[0], accs[1], subs[1]);
      assert Route(w, accs[1..], subs[1..], path[1..]) by {
        forall i | 0 <= i < |path| - 1
          ensures Hop(w, accs[1..][i], subs[1..][i], path[1..][i], accs[1..][i + 1], subs[1..][i + 1]) {
          assert Hop(w, accs[i + 1], subs[i + 1], path[i + 1], accs[i + 2], subs[i + 2]);
        }
      }
      RouteIsChain(w, accs[1..], subs[1..], path[1..]);
    }
  }

  /** Every chain is a route. */
  lemma {:induction false} ChainIsRoute(w: World, a: string, subject: string, path: seq<nat>) returns (accs: seq<string>, subs: seq<string>)
    requires Chain(w, a, subject, path)
    ensures Route(w, accs, subs, path) && accs[0] == a && subs[0] == subject && accs[|path|] == End(w, a, subject, path)
    decreases |path|
  {
    if path == [] {
      accs, subs := [a], [subject];
    } else {
      var si := ImportsOf(w, a)[path[0]];
      var as', ss' := ChainIsRoute(w, si.acc, Narrow(w, subject, si), path[1..]);
      accs, subs := [a] + as', [subject] + ss';
      forall i | 0 <= i < |path| ensures Hop(w, accs[i], subs[i], path[i], accs[i + 1], subs[i + 1]) {
        if i > 0 { assert Hop(w, as'[i - 1], ss'[i - 1], path[1..][i - 1], as'[i], ss'[i]); }
      }
    }
  }

  /** When the check before an import is added passes, no route from the destination
      leads back to the importing account, nor in two or more steps to itself. */
  lemma PassedCheckHasNoRouteBack(w: World, importer: string, accs: seq<string>, subs: seq<string>, path: seq<nat>)
    requires Route(w, accs, subs, path) && path != [] && Search(w, accs[0], subs[0], {importer}).result.Clear?
    ensures accs[|path|] != importer && (1 < |path| ==> accs[|path|] != accs[0])
  {
    hide Search;
    RouteIsChain(w, accs, subs, path);
    PassedCheckFormsNoCycle(w, importer, accs[0], subs[0], path);
  }

  /** The check before an import is added: when it passes, no chain of imports
      from the destination leads back to the importing account, and no chain
      comes back to the destination in two or more imports. */
  lemma PassedCheckFormsNoCycle(w: World, importer: string, dest: string, subject: string, path: seq<nat>)
    requires Search(w, dest, subject, {importer}).result.Clear? && Chain(w, dest, subject, path) && path != []
    ensures End(w, dest, subject, path) != importer
    ensures 1 < |path| ==> End(w, dest, subject, path) != dest
  {
    SearchIsExact(w, dest, subject, {importer});
    assert ChainFrom(w, dest, subject, 0, path);
    if 1 < |path| {
      ThroughImport(w, dest, subject, path[0], path[1..]);
      assert [path[0]] + path[1..] == path;
      ThroughImport(w, dest, subject, path[0], []);
      assert [path[0]] + [] == [path[0]];
      BeforeThrough(path[0], [], path[1..]);
      assert !Crosses(w, dest, subject, 0, [path[0]], path);
    }
  }

  // ---------- When the check refuses without need ----------

  /** Everything collides and nothing is narrowed. */
  function Diamond(): World {
    var to := (acc: string) => Import(acc, "s", "s");
    World(map["A" := [to("B"), to("C")], "B" := [to("D")], "C" := [to("D")], "D" := [to("E")]],
          (x, y) => true, (x, y) => false)
  }

  /** Two ways to the same account are taken for a cycle, although every chain
      ends away from the importing account. */
  lemma DiamondIsRefused(path: seq<nat>)
    ensures Search(Diamond(), "A", "s", {"X"}).result.FormsCycle?
    ensures Chain(Diamond(), "A", "s", path) ==> End(Diamond(), "A", "s", path) in {"A", "B", "C", "D", "E"}
  {
    var w := Diamond();
    assert ImportsOf(w, "E") == [];
    assert Search(w, "E", "s", {"X", "A", "B", "D"}) == Found(Clear, {"X", "A", "B", "D"});
    assert {"X", "A", "B"} + {"D"} == {"X", "A", "B", "D"};
    assert SearchFrom(w, "D", "s", {"X", "A", "B", "D"}, 1) == Found(Clear, {"X", "A", "B", "D"});
    assert SearchFrom(w, "D", "s", {"X", "A", "B"}, 0) == Found(Clear, {"X", "A", "B", "D"});
    assert Search(w, "D", "s", {"X", "A", "B"}) == Found(Clear, {"X", "A", "B", "D"});
    assert {"X", "A"} + {"B"} == {"X", "A", "B"};
    assert SearchFrom(w, "B", "s", {"X", "A", "B", "D"}, 1) == Found(Clear, {"X", "A", "B", "D"});
    assert Search(w, "B", "s", {"X", "A"}) == Found(Clear, {"X", "A", "B", "D"});
    assert {"X"} + {"A"} == {"X", "A"};
    assert {"X", "A", "B", "D"} + {"A"} == {"X", "A", "B", "D"};
    assert Search(w, "C", "s", {"X", "A", "B", "D"}).result.FormsCycle?;
    assert SearchFrom(w, "A", "s", {"X", "A", "B", "D"}, 1).result.FormsCycle?;
    if Chain(w, "A", "s", path) {
      DiamondEnds("A", "s", path);
    }
  }

  lemma {:induction false} DiamondEnds(a: string, subject: string, path: seq<nat>)
    requires a in {"A", "B", "C", "D", "E"} && Chain(Diamond(), a, subject, path)
    ensures End(Diamond(), a, subject, path) in {"A", "B", "C", "D", "E"}
    decreases |path|
  {
    if path != [] {
      var w := Diamond();
      var si := ImportsOf(w, a)[path[0]];
      DiamondEnds(si.acc, Narrow(w, subject, si), path[1..]);
    }
  }
}
