/** Responses to service requests. The responding account keeps a response under
    a fresh name; the requesting account keeps, under the reply subject, entries
    that point back to the responses waiting for it. Adding, removing and losing
    interest each take several critical sections, and every section is a step of
    its own here, so that calls overlap in any order. Reply subjects are literal. */
module ServiceResponses {

  /** A response: the requesting account, its reply subject, and whether a
      delivery was attempted. */
  datatype Response = Response(dest: string, to: string, delivered: bool)

  /** Points to response `name` of account `acc`. */
  datatype Entry = Entry(acc: string, name: string)

  /** The responses of all accounts by account and name, and the reverse entries
      of all accounts by account and reply subject. */
  datatype Tables = Tables(responses: map<(string, string), Response>, reverse: map<(string, string), seq<Entry>>)

  function Count(es: seq<Entry>, e: Entry): nat {
    if es == [] then 0 else (if es[0] == e then 1 else 0) + Count(es[1..], e)
  }

  function EntriesAt(t: Tables, dest: string, reply: string): seq<Entry> {
    if (dest, reply) in t.reverse then t.reverse[(dest, reply)] else []
  }

  /** The tables agree: every reverse entry points to a live response for that
      account and reply, and every response has exactly one reverse entry unless
      it is delivered, when it has at most one. */
  ghost predicate Agree(t: Tables) {
    && (forall d, r, e :: e in EntriesAt(t, d, r) ==> Points(t, d, r, e))
    && (forall a, n :: (a, n) in t.responses ==> Held(t, a, n))
  }

  predicate Points(t: Tables, dest: string, reply: string, e: Entry) {
    && (e.acc, e.name) in t.responses
    && t.responses[(e.acc, e.name)].dest == dest
    && t.responses[(e.acc, e.name)].to == reply
  }

  predicate Held(t: Tables, a: string, n: string)
    requires (a, n) in t.responses
  {
    var r := t.responses[(a, n)];
    var c := Count(EntriesAt(t, r.dest, r.to), Entry(a, n));
    c == 1 || (r.delivered && c == 0)
  }

  // ---------- Critical sections ----------

  function AddResponse(t: Tables, a: string, n: string, dest: string, to: string): Tables {
    t.(responses := t.responses[(a, n) := Response(dest, to, false)])
  }

  function AddReverse(t: Tables, a: string, n: string, dest: string, to: string): Tables {
    t.(reverse := t.reverse[(dest, to) := EntriesAt(t, dest, to) + [Entry(a, n)]])
  }

  function Unlist(t: Tables, a: string, n: string): Tables {
    t.(responses := t.responses - {(a, n)})
  }

  /** The entries without the first one of a name. */
  function Dropped(es: seq<Entry>, n: string): seq<Entry> {
    if es == [] then [] else if es[0].name == n then es[1..] else [es[0]] + Dropped(es[1..], n)
  }

  function Detach(t: Tables, n: string, dest: string, to: string): Tables {
    if (dest, to) !in t.reverse then t
    else
      var es := Dropped(t.reverse[(dest, to)], n);
      t.(reverse := if es == [] then t.reverse - {(dest, to)} else t.reverse[(dest, to) := es])
  }

  function MarkDelivered(t: Tables, a: string, n: string): Tables {
    if (a, n) in t.responses then t.(responses := t.responses[(a, n) := t.responses[(a, n)].(delivered := true)]) else t
  }

  function DropReply(t: Tables, dest: string, reply: string): Tables {
    t.(reverse := t.reverse - {(dest, reply)})
  }

  /** A response that was not delivered is removed. */
  function Forget(t: Tables, a: string, n: string): Tables {
    if (a, n) in t.responses && !t.responses[(a, n)].delivered then Unlist(t, a, n) else t
  }

  // ---------- Interleavings ----------

  /** Who a response answers. */
  datatype Origin = Origin(acc: string, dest: string, to: string)

  /** The tables, every response ever made, and the calls in flight: additions
      before their second section, removals before theirs (several calls can
      remove the same response), and entries taken off a reply nobody listens on
      whose responses are still to be forgotten. */
  datatype State = State(t: Tables, made: map<string, Origin>, pending: set<string>,
                         removing: multiset<string>, forgetting: set<string>)

  datatype Action =
    | BeginAdd(name: string, origin: Origin)
    | FinishAdd(name: string)
    | BeginRemove(name: string)
    | FinishRemove(name: string)
    | Deliver(name: string)
    | LoseInterest(dest: string, reply: string)
    | ForgetOne(name: string)

  /** A new response takes a fresh name; the other steps act on responses made
      before, and second sections follow first ones. */
  predicate Enabled(s: State, a: Action) {
    match a
    case BeginAdd(n, _) => n !in s.made
    case FinishAdd(n) => n in s.made && n in s.pending
    case BeginRemove(n) => n in s.made
    case FinishRemove(n) => n in s.made && n in s.removing
    case Deliver(n) => n in s.made
    case LoseInterest(_, _) => true
    case ForgetOne(n) => n in s.made && n in s.forgetting
  }

  function Names(es: seq<Entry>): set<string> {
    set e | e in es :: e.name
  }

  function Next(s: State, a: Action): State
    requires Enabled(s, a)
  {
    match a
    case BeginAdd(n, o) =>
      s.(t := AddResponse(s.t, o.acc, n, o.dest, o.to), made := s.made[n := o], pending := s.pending + {n})
    case FinishAdd(n) =>
      s.(t := AddReverse(s.t, s.made[n].acc, n, s.made[n].dest, s.made[n].to), pending := s.pending - {n})
    case BeginRemove(n) =>
      s.(t := Unlist(s.t, s.made[n].acc, n), removing := s.removing + multiset{n})
    case FinishRemove(n) =>
      s.(t := Detach(s.t, n, s.made[n].dest, s.made[n].to), removing := s.removing - multiset{n})
    case Deliver(n) =>
      s.(t := MarkDelivered(s.t, s.made[n].acc, n))
    case LoseInterest(d, r) =>
      s.(t := DropReply(s.t, d, r), forgetting := s.forgetting + Names(EntriesAt(s.t, d, r)))
    case ForgetOne(n) =>
      s.(t := Forget(s.t, s.made[n].acc, n), forgetting := s.forgetting - {n})
  }

  // ---------- The invariant ----------

  /** An entry points to a live response, or to one whose removal is in flight. */
  predicate EntryOk(s: State, d: string, r: string, e: Entry) {
    && e.name in s.made && s.made[e.name] == Origin(e.acc, d, r)
    && e.name !in s.pending && e.name !in s.forgetting
    && ((e.acc, e.name) in s.t.responses || e.name in s.removing)
    && Count(EntriesAt(s.t, d, r), e) == 1
  }

  /** A response has its entry, or is delivered, or a call in flight accounts for it. */
  predicate ResponseOk(s: State, a: string, n: string)
    requires (a, n) in s.t.responses
  {
    var r := s.t.responses[(a, n)];
    && n in s.made && s.made[n] == Origin(a, r.dest, r.to)
    && (r.delivered || n in s.pending || n in s.forgetting || Entry(a, n) in EntriesAt(s.t, r.dest, r.to))
  }

  ghost predicate Consistent(s: State) {
    && (forall d, r, e :: e in EntriesAt(s.t, d, r) ==> EntryOk(s, d, r, e))
    && (forall a, n :: (a, n) in s.t.responses ==> ResponseOk(s, a, n))
    && (forall n :: n in s.removing ==> n in s.made && (s.made[n].acc, n) !in s.t.responses)
    && s.pending <= s.made.Keys && s.forgetting <= s.made.Keys && s.pending !! s.forgetting
  }

  lemma {:induction false} CountAppend(es: seq<Entry>, fs: seq<Entry>, e: Entry)
    ensures Count(es + fs, e) == Count(es, e) + Count(fs, e)
    decreases |es|
  {
    if es == [] {
      assert es + fs == fs;
    } else {
      assert (es + fs)[1..] == es[1..] + fs;
      CountAppend(es[1..], fs, e);
    }
  }

  lemma {:induction false} CountIsMembership(es: seq<Entry>, e: Entry)
    ensures Count(es, e) > 0 <==> e in es
    decreases |es|
  {
    if es != [] { CountIsMembership(es[1..], e); }
  }

  lemma BeginAddKeeps(s: State, n: string, o: Origin)
    requires Consistent(s) && n !in s.made
    ensures Consistent(Next(s, BeginAdd(n, o)))
  {
    var s' := Next(s, BeginAdd(n, o));
    forall d, r, e | e in EntriesAt(s'.t, d, r) ensures EntryOk(s', d, r, e) {
      assert e in EntriesAt(s.t, d, r) && EntryOk(s, d, r, e);
    }
    forall b, m | (b, m) in s'.t.responses ensures ResponseOk(s', b, m) {
      if (b, m) != (o.acc, n) { assert ResponseOk(s, b, m); }
    }
  }

  /** The second section of an addition is safe exactly when the response is
      still there or a removal of it is still to drop its entry. */
  lemma FinishAddKeeps(s: State, n: string)
    requires Consistent(s) && n in s.pending
    ensures Consistent(Next(s, FinishAdd(n))) <==> ((s.made[n].acc, n) in s.t.responses || n in s.removing)
  {
    var o := s.made[n];
    var s' := Next(s, FinishAdd(n));
    var es := EntriesAt(s.t, o.dest, o.to);
    var added := Entry(o.acc, n);
    assert added in EntriesAt(s'.t, o.dest, o.to);
    if (o.acc, n) in s.t.responses || n in s.removing {
      assert added !in es by { assert added in es ==> EntryOk(s, o.dest, o.to, added); }
      forall d, r, e | e in EntriesAt(s'.t, d, r) ensures EntryOk(s', d, r, e) {
        CountAppend(es, [added], e);
        CountIsMembership(es, e);
        assert [added][1..] == [];
        assert e in EntriesAt(s.t, d, r) ==> EntryOk(s, d, r, e);
      }
      forall b, m | (b, m) in s'.t.responses ensures ResponseOk(s', b, m) {
        assert ResponseOk(s, b, m);
      }
    } else {
      assert !EntryOk(s', o.dest, o.to, added);
    }
  }

  lemma BeginRemoveKeeps(s: State, n: string)
    requires Consistent(s) && n in s.made
    ensures Consistent(Next(s, BeginRemove(n)))
  {
    var s' := Next(s, BeginRemove(n));
    forall d, r, e | e in EntriesAt(s'.t, d, r) ensures EntryOk(s', d, r, e) {
      assert e in EntriesAt(s.t, d, r) && EntryOk(s, d, r, e);
    }
    forall b, m | (b, m) in s'.t.responses ensures ResponseOk(s', b, m) {
      assert ResponseOk(s, b, m);
    }
  }

  lemma {:induction false} DroppedAt(es: seq<Entry>, n: string, i: nat)
    requires i <= |es| && (forall j :: 0 <= j < i ==> es[j].name != n) && (i < |es| ==> es[i].name == n)
    ensures Dropped(es, n) == if i < |es| then es[..i] + es[i + 1..] else es
    decreases i
  {
    if i > 0 {
      var rest := es[1..];
      DroppedAt(rest, n, i - 1);
      assert es == [es[0]] + rest;
      assert i < |es| ==> es[..i] + es[i + 1..] == [es[0]] + (rest[..i - 1] + rest[i..]);
    } else {
      assert es != [] ==> es[..0] + es[1..] == es[1..];
    }
  }

  /** Dropping a name that occurs at most once removes its entry and no other. */
  lemma {:induction false} DroppedIs(es: seq<Entry>, n: string, e: Entry)
    requires forall x, y :: x in es && y in es && x.name == y.name ==> x == y
    ensures Count(Dropped(es, n), e) == if e.name == n && e in es then Count(es, e) - 1 else Count(es, e)
    decreases |es|
  {
    if es != [] {
      CountIsMembership(es[1..], e);
      assert es[0] in es;
      forall x | x in es[1..] ensures x in es {}
      if es[0].name != n {
        DroppedIs(es[1..], n, e);
        assert Dropped(es, n)[1..] == Dropped(es[1..], n);
      }
    }
  }

  lemma FinishRemoveKeeps(s: State, n: string)
    requires Consistent(s) && n in s.removing
    ensures Consistent(Next(s, FinishRemove(n)))
  {
    var o := s.made[n];
    var s' := Next(s, FinishRemove(n));
    var es := EntriesAt(s.t, o.dest, o.to);
    forall x | x in es ensures EntryOk(s, o.dest, o.to, x) {}
    forall e ensures e in EntriesAt(s'.t, o.dest, o.to) <==> e in es && e.name != n
             ensures e.name != n ==> Count(EntriesAt(s'.t, o.dest, o.to), e) == Count(es, e)
    {
      DroppedIs(es, n, e);
      CountIsMembership(es, e);
      CountIsMembership(EntriesAt(s'.t, o.dest, o.to), e);
    }
    forall d, r, e | e in EntriesAt(s'.t, d, r) ensures EntryOk(s', d, r, e) {
      assert e in EntriesAt(s.t, d, r) && EntryOk(s, d, r, e);
      assert (d, r) != (o.dest, o.to) ==> EntriesAt(s'.t, d, r) == EntriesAt(s.t, d, r);
    }
    forall b, m | (b, m) in s'.t.responses ensures ResponseOk(s', b, m) {
      assert ResponseOk(s, b, m);
    }
  }

  lemma DeliverKeeps(s: State, n: string)
    requires Consistent(s) && n in s.made
    ensures Consistent(Next(s, Deliver(n)))
  {
    var s' := Next(s, Deliver(n));
    forall d, r, e | e in EntriesAt(s'.t, d, r) ensures EntryOk(s', d, r, e) {
      assert e in EntriesAt(s.t, d, r) && EntryOk(s, d, r, e);
    }
    forall b, m | (b, m) in s'.t.responses ensures ResponseOk(s', b, m) {
      assert ResponseOk(s, b, m);
    }
  }

  lemma LoseInterestKeeps(s: State, dest: string, reply: string)
    requires Consistent(s)
    ensures Consistent(Next(s, LoseInterest(dest, reply)))
  {
    var s' := Next(s, LoseInterest(dest, reply));
    var es := EntriesAt(s.t, dest, reply);
    forall x | x in es ensures EntryOk(s, dest, reply, x) {}
    forall d, r, e | e in EntriesAt(s'.t, d, r) ensures EntryOk(s', d, r, e) {
      assert e in EntriesAt(s.t, d, r) && EntryOk(s, d, r, e);
    }
    forall b, m | (b, m) in s'.t.responses ensures ResponseOk(s', b, m) {
      assert ResponseOk(s, b, m);
    }
  }

  lemma ForgetOneKeeps(s: State, n: string)
    requires Consistent(s) && n in s.forgetting
    ensures Consistent(Next(s, ForgetOne(n)))
  {
    var s' := Next(s, ForgetOne(n));
    forall d, r, e | e in EntriesAt(s'.t, d, r) ensures EntryOk(s', d, r, e) {
      assert e in EntriesAt(s.t, d, r) && EntryOk(s, d, r, e);
    }
    forall b, m | (b, m) in s'.t.responses ensures ResponseOk(s', b, m) {
      assert ResponseOk(s, b, m);
    }
  }

  // ---------- Runs ----------

  /** The second section of an addition finds its response, or a removal that
      has not reached the reverse entries yet. */
  predicate InTime(s: State, a: Action)
    requires Enabled(s, a)
  {
    a.FinishAdd? ==> (s.made[a.name].acc, a.name) in s.t.responses || a.name in s.removing
  }

  lemma StepKeeps(s: State, a: Action)
    requires Consistent(s) && Enabled(s, a)
    ensures Consistent(Next(s, a)) <==> InTime(s, a)
  {
    hide Consistent, Next;
    match a
    case BeginAdd(n, o) => BeginAddKeeps(s, n, o);
    case FinishAdd(n) => FinishAddKeeps(s, n);
    case BeginRemove(n) => BeginRemoveKeeps(s, n);
    case FinishRemove(n) => FinishRemoveKeeps(s, n);
    case Deliver(n) => DeliverKeeps(s, n);
    case LoseInterest(d, r) => LoseInterestKeeps(s, d, r);
    case ForgetOne(n) => ForgetOneKeeps(s, n);
  }

  predicate Possible(s: State, run: seq<Action>)
    decreases |run|
  {
    run == [] || (Enabled(s, run[0]) && Possible(Next(s, run[0]), run[1..]))
  }

  function After(s: State, run: seq<Action>): State
    requires Possible(s, run)
    decreases |run|
  {
    if run == [] then s else After(Next(s, run[0]), run[1..])
  }

  predicate AllInTime(s: State, run: seq<Action>)
    requires Possible(s, run)
    decreases |run|
  {
    run == [] || (InTime(s, run[0]) && AllInTime(Next(s, run[0]), run[1..]))
  }

  const START := State(Tables(map[], map[]), map[], {}, multiset{}, {})

  predicate Quiet(s: State) {
    s.pending == {} && s.removing == multiset{} && s.forgetting == {}
  }

  lemma {:induction false} RunKeeps(s: State, run: seq<Action>)
    requires Consistent(s) && Possible(s, run) && AllInTime(s, run)
    ensures Consistent(After(s, run))
    decreases |run|
  {
    hide Consistent, Next;
    if run != [] {
      StepKeeps(s, run[0]);
      RunKeeps(Next(s, run[0]), run[1..]);
    }
  }

  /** Every state of the run is consistent. */
  ghost predicate AllConsistent(s: State, run: seq<Action>)
    requires Possible(s, run)
    decreases |run|
  {
    Consistent(s) && (run == [] || AllConsistent(Next(s, run[0]), run[1..]))
  }

  /** Over every interleaving all states are consistent exactly when every addition
      adds its reverse entry in time. */
  lemma {:induction false} ConsistencyIsExact(s: State, run: seq<Action>)
    requires Consistent(s) && Possible(s, run)
    ensures AllConsistent(s, run) <==> AllInTime(s, run)
    decreases |run|
  {
    hide Consistent, Next, InTime;
    if run != [] {
      StepKeeps(s, run[0]);
      if InTime(s, run[0]) { ConsistencyIsExact(Next(s, run[0]), run[1..]); }
    }
  }

  lemma QuietAgrees(s: State)
    requires Consistent(s) && Quiet(s)
    ensures Agree(s.t)
  {
    forall d, r, e | e in EntriesAt(s.t, d, r) ensures Points(s.t, d, r, e) {
      assert EntryOk(s, d, r, e);
      assert ResponseOk(s, e.acc, e.name);
    }
    forall a, n | (a, n) in s.t.responses ensures Held(s.t, a, n) {
      assert ResponseOk(s, a, n);
      var r := s.t.responses[(a, n)];
      CountIsMembership(EntriesAt(s.t, r.dest, r.to), Entry(a, n));
      assert Entry(a, n) in EntriesAt(s.t, r.dest, r.to) ==> EntryOk(s, r.dest, r.to, Entry(a, n));
    }
  }

  /** However the critical sections of any number of calls interleave, the tables
      agree whenever no call is in flight, provided every addition adds its
      reverse entry in time. */
  lemma TablesAgree(run: seq<Action>)
    requires Possible(START, run) && AllInTime(START, run) && Quiet(After(START, run))
    ensures Agree(After(START, run).t)
  {
    RunKeeps(START, run);
    QuietAgrees(After(START, run));
  }

  /** An addition overtaken by a whole removal of its response leaves a reverse
      entry that points to nothing. */
  lemma LateEntryDangles(n: string, o: Origin)
    ensures var run := [BeginAdd(n, o), BeginRemove(n), FinishRemove(n), FinishAdd(n)];
            Possible(START, run) && Quiet(After(START, run)) && !Agree(After(START, run).t)
  {
    var run := [BeginAdd(n, o), BeginRemove(n), FinishRemove(n), FinishAdd(n)];
    var s1 := Next(START, run[0]);
    var s2 := Next(s1, run[1]);
    var s3 := Next(s2, run[2]);
    var s4 := Next(s3, run[3]);
    assert run[1..][1..][1..][1..] == [];
    assert Possible(s3, [run[3]]) && After(s3, [run[3]]) == s4;
    assert run[1..][1..] == [run[2], run[3]];
    assert Possible(s2, run[1..][1..]) && After(s2, run[1..][1..]) == s4;
    assert Possible(s1, run[1..]) && After(s1, run[1..]) == s4;
    assert Entry(o.acc, n) in EntriesAt(s4.t, o.dest, o.to);
    assert !Points(s4.t, o.dest, o.to, Entry(o.acc, n));
  }

  // ---------- Whole calls ----------

  function ForgetAll(t: Tables, es: seq<Entry>): Tables
    decreases |es|
  {
    if es == [] then t else ForgetAll(Forget(t, es[0].acc, es[0].name), es[1..])
  }

  predicate DistinctNames(es: seq<Entry>) {
    forall i, j :: 0 <= i < j < |es| ==> es[i].name != es[j].name
  }

  lemma {:induction false} CountedOnce(es: seq<Entry>)
    requires forall x :: x in es ==> Count(es, x) == 1
    requires forall x, y :: x in es && y in es && x.name == y.name ==> x == y
    ensures DistinctNames(es)
    decreases |es|
  {
    if es != [] {
      var rest := es[1..];
      forall x | x in rest ensures x in es && Count(rest, x) == 1 && x != es[0] {
        assert x in es && Count(es, x) == 1;
        CountIsMembership(rest, x);
      }
      CountedOnce(rest);
      forall i, j | 0 <= i < j < |es| ensures es[i].name != es[j].name {
        assert es[j] == rest[j - 1] && es[j] in rest && es[i] in es;
        if i > 0 { assert es[i] == rest[i - 1]; }
      }
    }
  }

  lemma {:induction false} ForgetAllKeeps(s: State, es: seq<Entry>)
    requires Consistent(s) && DistinctNames(es) && s.forgetting == Names(es)
    requires forall e :: e in es ==> e.name in s.made && s.made[e.name].acc == e.acc
    ensures Consistent(s.(t := ForgetAll(s.t, es), forgetting := {}))
    decreases |es|
  {
    hide Consistent;
    if es == [] {
      assert s == s.(t := ForgetAll(s.t, es), forgetting := {});
    } else {
      var n := es[0].name;
      assert es[0] in es && n in s.forgetting;
      ForgetOneKeeps(s, n);
      var s' := Next(s, ForgetOne(n));
      assert s'.forgetting == Names(es[1..]) by {
        forall m | m in s'.forgetting ensures m in Names(es[1..]) {
          var e :| e in es && e.name == m;
          assert e in es[1..];
        }
        forall m | m in Names(es[1..]) ensures m in s'.forgetting {
          var e :| e in es[1..] && e.name == m;
          assert e in es;
        }
      }
      ForgetAllKeeps(s', es[1..]);
    }
  }

  lemma InterestLostKeeps(s: State, dest: string, reply: string)
    requires Consistent(s) && Quiet(s)
    ensures Consistent(s.(t := ForgetAll(DropReply(s.t, dest, reply), EntriesAt(s.t, dest, reply))))
  {
    var es := EntriesAt(s.t, dest, reply);
    LoseInterestKeeps(s, dest, reply);
    forall x | x in es ensures EntryOk(s, dest, reply, x) {}
    CountedOnce(es);
    ForgetAllKeeps(Next(s, LoseInterest(dest, reply)), es);
  }

  /** The accounts' response and reverse maps, with one call at a time. */
  class Accounts {
    var responses: map<(string, string), Response>
    var reverse: map<(string, string), seq<Entry>>
    ghost var made: map<string, Origin>

    ghost function Now(): State
      reads this
    {
      State(Tables(responses, reverse), made, {}, multiset{}, {})
    }

    ghost predicate Valid()
      reads this
    {
      Consistent(Now())
    }

    constructor ()
      ensures Valid() && Now() == START
    {
      responses, reverse, made := map[], map[], map[];
    }

    /** Between calls the tables agree. */
    lemma TablesAgreeNow()
      requires Valid()
      ensures Agree(Now().t)
    {
      QuietAgrees(Now());
    }

    method AddRespServiceImport(a: string, n: string, dest: string, to: string)
      requires Valid() && n !in made
      modifies this
      ensures Valid() && made == old(made)[n := Origin(a, dest, to)]
      ensures Now().t == AddReverse(AddResponse(old(Now().t), a, n, dest, to), a, n, dest, to)
    {
      BeginAddKeeps(Now(), n, Origin(a, dest, to));
      FinishAddKeeps(Next(Now(), BeginAdd(n, Origin(a, dest, to))), n);
      ghost var s := Next(Next(Now(), BeginAdd(n, Origin(a, dest, to))), FinishAdd(n));
      responses := responses[(a, n) := Response(dest, to, false)];
      made := made[n := Origin(a, dest, to)];
      AddReverseRespMapEntry(a, n, dest, to);
      assert Now() == s;
    }

    method AddReverseRespMapEntry(acc: string, from: string, dest: string, reply: string)
      modifies this`reverse
      ensures Now().t == AddReverse(old(Now().t), acc, from, dest, reply)
    {
      var sra := if (dest, reply) in reverse then reverse[(dest, reply)] else [];
      reverse := reverse[(dest, reply) := sra + [Entry(acc, from)]];
    }

    method RemoveRespServiceImport(n: string, a: string, dest: string, to: string)
      requires Valid() && n in made && made[n] == Origin(a, dest, to)
      modifies this`responses, this`reverse
      ensures Valid()
      ensures Now().t == Detach(Unlist(old(Now().t), a, n), n, dest, to)
    {
      BeginRemoveKeeps(Now(), n);
      FinishRemoveKeeps(Next(Now(), BeginRemove(n)), n);
      ghost var s := Next(Next(Now(), BeginRemove(n)), FinishRemove(n));
      responses := responses - {(a, n)};
      DetachEntry(n, dest, to);
      assert Now() == s;
    }

    /** The search for one response's entry, and its removal. */
    method DetachEntry(n: string, dest: string, to: string)
      modifies this`reverse
      ensures Now().t == Detach(old(Now().t), n, dest, to)
    {
      if (dest, to) !in reverse { return; }
      var sres := reverse[(dest, to)];
      var i := 0;
      while i < |sres| && sres[i].name != n
        invariant i <= |sres| && forall j :: 0 <= j < i ==> sres[j].name != n
      {
        i := i + 1;
      }
      DroppedAt(sres, n, i);
      if i < |sres| { sres := sres[..i] + sres[i + 1..]; }
      reverse := if |sres| > 0 then reverse[(dest, to) := sres] else reverse - {(dest, to)};
    }

    method MarkDeliveryAttempt(n: string, a: string)
      requires Valid() && n in made && made[n].acc == a
      modifies this`responses
      ensures Valid() && Now().t == MarkDelivered(old(Now().t), a, n)
    {
      DeliverKeeps(Now(), n);
      if (a, n) in responses { responses := responses[(a, n) := responses[(a, n)].(delivered := true)]; }
    }

    /** Called when a subscription on the reply goes away. */
    method CheckForReverseEntry(dest: string, reply: string, hasInterest: bool)
      requires Valid()
      modifies this`responses, this`reverse
      ensures Valid()
      ensures Now().t == if hasInterest then old(Now().t)
                         else ForgetAll(DropReply(old(Now().t), dest, reply), EntriesAt(old(Now().t), dest, reply))
    {
      if (dest, reply) !in reverse || hasInterest {
        assert reverse - {(dest, reply)} == reverse || hasInterest;
        return;
      }
      InterestLostKeeps(Now(), dest, reply);
      var sres := reverse[(dest, reply)];
      reverse := reverse - {(dest, reply)};
      ghost var t0 := Now().t;
      var i := 0;
      while i < |sres|
        invariant i <= |sres| && reverse == t0.reverse
        invariant ForgetAll(t0, sres) == ForgetAll(Now().t, sres[i..])
      {
        var k := (sres[i].acc, sres[i].name);
        if k in responses && !responses[k].delivered { responses := responses - {k}; }
        i := i + 1;
      }
    }
  }

  // ---------- What each section changes ----------

  /** A response appears when it is added, undelivered and for the account and reply it
      answers. It goes when a removal of it begins, or when it is forgotten undelivered.
      It is marked by an attempt to deliver it. Nothing else changes it. */
  lemma SectionOnResponse(s: State, a: Action, acc: string, n: string)
    requires Consistent(s) && Enabled(s, a)
    ensures var key, t, t' := (acc, n), s.t, Next(s, a).t;
            && (key !in t.responses ==>
                  (key in t'.responses <==> a.BeginAdd? && a.name == n && a.origin.acc == acc))
            && (key !in t.responses && key in t'.responses ==>
                  t'.responses[key] == Response(a.origin.dest, a.origin.to, false))
            && (key in t.responses ==>
                  (key !in t'.responses <==> a == BeginRemove(n) || (a == ForgetOne(n) && !t.responses[key].delivered)))
            && (key in t.responses && key in t'.responses ==>
                  && t'.responses[key].dest == t.responses[key].dest && t'.responses[key].to == t.responses[key].to
                  && (t'.responses[key].delivered <==> t.responses[key].delivered || a == Deliver(n)))
  {
    if (acc, n) in s.t.responses { assert ResponseOk(s, acc, n); }
  }

  /** An entry appears when the addition of its response finishes. It goes when a removal
      of its response finishes or nobody listens on its reply any more. */
  lemma SectionOnEntry(s: State, a: Action, d: string, r: string, e: Entry)
    requires Consistent(s) && Enabled(s, a)
    ensures var es, es' := EntriesAt(s.t, d, r), EntriesAt(Next(s, a).t, d, r);
            && (e !in es ==> (e in es' <==> a == FinishAdd(e.name) && s.made[e.name] == Origin(e.acc, d, r)))
            && (e in es ==> (e !in es' <==> a == FinishRemove(e.name) || a == LoseInterest(d, r)))
  {
    hide Consistent;
    match a
    case FinishAdd(n) =>
    case FinishRemove(n) => FinishRemoveOnEntry(s, n, d, r, e);
    case LoseInterest(_, _) =>
    case BeginAdd(_, _) =>
    case BeginRemove(_) =>
    case Deliver(_) =>
    case ForgetOne(_) =>
  }

  lemma FinishRemoveOnEntry(s: State, n: string, d: string, r: string, e: Entry)
    requires Consistent(s) && Enabled(s, FinishRemove(n))
    ensures var es, es' := EntriesAt(s.t, d, r), EntriesAt(Next(s, FinishRemove(n)).t, d, r);
            (e !in es ==> e !in es') && (e in es ==> (e !in es' <==> e.name == n))
  {
    var es := EntriesAt(s.t, d, r);
    var o := s.made[n];
    DroppedMembers(es, n, e);
    if e in es { assert EntryOk(s, d, r, e); }
    if (d, r) == (o.dest, o.to) {
      if e in es && e.name == n {
        forall x | x in es && x.name == n ensures x == e { assert EntryOk(s, d, r, x); }
        DropsTheOnly(es, n, e);
      }
    }
  }

  lemma {:induction false} DroppedMembers(es: seq<Entry>, n: string, e: Entry)
    ensures e in Dropped(es, n) ==> e in es
    ensures e in es && e.name != n ==> e in Dropped(es, n)
    decreases |es|
  {
    if es != [] {
      DroppedMembers(es[1..], n, e);
      assert es == [es[0]] + es[1..];
    }
  }

  lemma {:induction false} DropsTheOnly(es: seq<Entry>, n: string, e: Entry)
    requires e in es && e.name == n && Count(es, e) == 1
    requires forall x :: x in es && x.name == n ==> x == e
    ensures e !in Dropped(es, n)
    decreases |es|
  {
    if es[0].name == n {
      assert es[0] in es && es[0] == e;
      CountIsMembership(es[1..], e);
    } else {
      assert es == [es[0]] + es[1..];
      DropsTheOnly(es[1..], n, e);
    }
  }
}
