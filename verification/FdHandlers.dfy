/**
 Handlers that choose what to do by the entry they are given. They see the order in which a
 map yields its entries; backends agree on every order when what the handlers do commutes.
 */
module FdHandlers {
  import opened FdTypes
  import opened FdSemantics
  import opened FdSteps
  import opened FdCounts
  import opened FdBackends

  /** The scripts of handlers that choose by the entry, in the order the entries are released. */
  function ByEntry(script: Entry -> Reaction, es: seq<Entry>): seq<Reaction> {
    if es == [] then [] else [script(es[0])] + ByEntry(script, es[1..])
  }

  // ---- the handlers' work without the releases ----

  /** A handler at work, and what its error does to the removal of a table. */
  function Act(b: Backend, w: World, r: Reaction): World {
    var w1 := React(b, w, r);
    if w1.halt == Running && r.errno != 0 then w1.(halt := HandlerFailed) else w1
  }

  /** The handlers of these entries one after the other. */
  function Acts(w: World, script: Entry -> Reaction, es: seq<Entry>): World
    decreases |es|
  {
    if es == [] then w else Acts(Act(ArrayRows, w, script(es[0])), script, es[1..])
  }

  lemma ActSound(b: Backend, w: World, r: Reaction)
    requires Lawful(b) && Sound(b, w)
    ensures Sound(b, Act(b, w, r)) && (w.halt != Running ==> Act(b, w, r) == w)
  {
    ReactSound(b, w, r);
    if w.halt != Running {
      HaltedStays(b, w, r.ops);
    }
    var w1 := React(b, w, r);
    hide Sound, Lawful, React;
    SameBooks(b, w1, w1.(halt := HandlerFailed));
  }

  lemma {:induction false} ActsHalted(w: World, script: Entry -> Reaction, es: seq<Entry>)
    requires Sound(ArrayRows, w) && w.halt != Running
    ensures Acts(w, script, es) == w
    decreases |es|
  {
    if es != [] {
      ArrayLawful();
      ActSound(ArrayRows, w, script(es[0]));
      ActsHalted(w, script, es[1..]);
    }
  }

  /** What a handler does depends on the view only, on whatever backend it works. */
  lemma ActAgrees(h: Backend, w1: World, w2: World, r: Reaction)
    requires !h.HighWater? && Lawful(h) && Sound(ArrayRows, w1) && Sound(h, w2) && SameView(w1, w2) && TameReaction(r)
    ensures SameView(Act(ArrayRows, w1, r), Act(h, w2, r))
  {
    ReactAgrees(h, w1, w2, r);
    hide Sound, Lawful, React, TameReaction;
  }

  lemma {:induction false} ActsAgree(w1: World, w2: World, script: Entry -> Reaction, es: seq<Entry>)
    requires Sound(ArrayRows, w1) && Sound(ArrayRows, w2) && SameView(w1, w2) && forall e :: e in es ==> TameReaction(script(e))
    ensures SameView(Acts(w1, script, es), Acts(w2, script, es))
    decreases |es|
  {
    hide Sound, Act, TameReaction;
    if es != [] {
      ArrayLawful();
      ActAgrees(ArrayRows, w1, w2, script(es[0]));
      ActSound(ArrayRows, w1, script(es[0]));
      ActSound(ArrayRows, w2, script(es[0]));
      ActsAgree(Act(ArrayRows, w1, script(es[0])), Act(ArrayRows, w2, script(es[0])), script, es[1..]);
    }
  }

  lemma ByEntryCons(script: Entry -> Reaction, es: seq<Entry>)
    requires es != []
    ensures var rs := ByEntry(script, es); rs != [] && rs[0] == script(es[0]) && rs[1..] == ByEntry(script, es[1..])
  {
  }

  /** One release and its handler are, in the view, the handler alone. */
  lemma ReleaseIsAct(h: Backend, w1: World, w2: World, e: Entry, r: Reaction)
    requires !h.HighWater? && Lawful(h) && Sound(ArrayRows, w1) && Sound(h, w2) && SameView(w1, w2) && TameReaction(r)
    requires w2.halt == Running && w2.inFlight[KeyOf(e)] > 0
    ensures var y := React(h, Decrement(w2, e), r);
      && Sound(h, y) && SameView(Act(ArrayRows, w1, r), if y.halt == Running && r.errno != 0 then y.(halt := HandlerFailed) else y)
      && (y.halt == Running ==> y.inFlight == w2.inFlight - multiset{KeyOf(e)})
  {
    DecrementSound(h, w2, e);
    DecrementView(h, w2, e);
    var w := Decrement(w2, e);
    hide Decrement;
    ReactSound(h, w, r);
    ActAgrees(h, w1, w, r);
    hide Sound, Lawful, React, TameReaction;
  }

  /** Releasing entries is, in the view, the work of their handlers. */
  lemma {:induction false} DrainIsActs(h: Backend, w1: World, w2: World, todo: seq<Entry>, script: Entry -> Reaction, ok: Outcome)
    requires !h.HighWater? && Lawful(h) && Sound(ArrayRows, w1) && Sound(h, w2) && SameView(w1, w2)
    requires w2.halt == Running ==> KeysOf(todo) <= w2.inFlight
    requires forall e :: e in todo ==> TameReaction(script(e))
    ensures var (x, o) := Drain(h, w2, todo, ByEntry(script, todo), Panic, ok);
      SameView(Acts(w1, script, todo), x) && o == if x.halt == Running then ok else Panicked
    decreases |todo|
  {
    var rs := ByEntry(script, todo);
    hide Sound, Drain, KeysOf, Lawful, React, Decrement, TameReaction;
    if w2.halt != Running {
      DrainEnd(h, w2, todo, rs, Panic, ok);
      ActsHalted(w1, script, todo);
    } else if todo == [] {
      DrainEnd(h, w2, todo, rs, Panic, ok);
    } else {
      var e, r := todo[0], script(todo[0]);
      ByEntryCons(script, todo);
      hide ByEntry;
      FirstKey(w2.inFlight, todo);
      ReleaseIsAct(h, w1, w2, e, r);
      DrainStep(h, w2, todo, rs, Panic, ok);
      var x, y := Act(ArrayRows, w1, r), React(h, Decrement(w2, e), r);
      ArrayLawful();
      ActSound(ArrayRows, w1, r);
      hide Act;
      if y.halt == Running && r.errno == 0 {
        DrainIsActs(h, x, y, todo[1..], script, ok);
      } else {
        ActsHalted(x, script, todo[1..]);
      }
    }
  }

  // ---- handlers that commute ----

  /** What one handler does leaves the states in `good`, and can be swapped with what another does. */
  ghost predicate Swaps(script: Entry -> Reaction, good: World -> bool, e: Entry, f: Entry, w: World) {
    Sound(ArrayRows, w) && good(w) ==>
      var x, y := Act(ArrayRows, w, script(e)), Act(ArrayRows, w, script(f));
      good(x) && SameView(Act(ArrayRows, x, script(f)), Act(ArrayRows, y, script(e)))
  }

  ghost predicate Commute(script: Entry -> Reaction, good: World -> bool, es: seq<Entry>) {
    forall e, f, w :: e in es && f in es ==> Swaps(script, good, e, f, w)
  }

  lemma CommuteAt(script: Entry -> Reaction, good: World -> bool, all: seq<Entry>, e: Entry, f: Entry, w: World)
    requires Commute(script, good, all) && e in all && f in all && Sound(ArrayRows, w) && good(w)
    ensures var x, y := Act(ArrayRows, w, script(e)), Act(ArrayRows, w, script(f));
      good(x) && SameView(Act(ArrayRows, x, script(f)), Act(ArrayRows, y, script(e)))
  {
    assert Swaps(script, good, e, f, w);
    hide Sound, Act;
  }

  ghost predicate TameAll(script: Entry -> Reaction, all: seq<Entry>) {
    forall e :: e in all ==> TameReaction(script(e))
  }

  predicate Among(es: seq<Entry>, all: seq<Entry>) {
    forall e :: e in es ==> e in all
  }

  /** An entry's handler may as well come first. */
  lemma {:induction false} ToFront(w: World, script: Entry -> Reaction, good: World -> bool, all: seq<Entry>, es: seq<Entry>, i: nat)
    requires Sound(ArrayRows, w) && good(w) && Commute(script, good, all) && TameAll(script, all)
    requires Among(es, all) && i < |es|
    ensures SameView(Acts(w, script, es), Acts(w, script, [es[i]] + (es[..i] + es[i + 1..])))
    decreases i
  {
    hide Sound, Act, Commute, TameAll;
    var e, rest := es[i], es[..i] + es[i + 1..];
    if i == 0 {
      assert [e] + rest == es;
    } else {
      var f, tail := es[0], es[1..][..i - 1] + es[1..][i..];
      var x, y := Act(ArrayRows, w, script(f)), Act(ArrayRows, w, script(e));
      assert f in all && e in all;
      ArrayLawful();
      ActSound(ArrayRows, w, script(f));
      ActSound(ArrayRows, w, script(e));
      ActSound(ArrayRows, x, script(e));
      ActSound(ArrayRows, y, script(f));
      CommuteAt(script, good, all, f, e, w);
      Parts(es, i);
      ToFront(x, script, good, all, es[1..], i - 1);
      ActsTwo(x, script, e, tail);
      ActsTwo(w, script, e, rest);
      ActsTwo(y, script, f, tail);
      TameTail(script, all, es, tail);
      hide Acts;
      ActsAgree(Act(ArrayRows, x, script(e)), Act(ArrayRows, y, script(f)), script, tail);
    }
  }

  lemma Parts(es: seq<Entry>, i: nat)
    requires 0 < i < |es|
    ensures var tail := es[1..][..i - 1] + es[1..][i..];
      es[1..][i - 1] == es[i] && es[..i] + es[i + 1..] == [es[0]] + tail && Among(tail, es) && Among(es[1..], es)
  {
  }

  lemma ActsTwo(w: World, script: Entry -> Reaction, e: Entry, rest: seq<Entry>)
    ensures Acts(w, script, [e] + rest) == Acts(Act(ArrayRows, w, script(e)), script, rest)
  {
    hide Act;
    assert ([e] + rest)[1..] == rest;
  }

  lemma TameTail(script: Entry -> Reaction, all: seq<Entry>, es: seq<Entry>, tail: seq<Entry>)
    requires TameAll(script, all) && Among(es, all) && Among(tail, es)
    ensures forall e :: e in tail ==> TameReaction(script(e))
  {
    hide TameReaction;
  }

  /** In whatever order: the same view. */
  lemma {:induction false} AnyOrder(w: World, script: Entry -> Reaction, good: World -> bool, all: seq<Entry>, es: seq<Entry>, fs: seq<Entry>)
    requires Sound(ArrayRows, w) && good(w) && Commute(script, good, all) && TameAll(script, all)
    requires Among(es, all) && multiset(es) == multiset(fs)
    ensures SameView(Acts(w, script, es), Acts(w, script, fs))
    decreases |es|
  {
    hide Sound, Act, Commute, TameAll;
    assert |multiset(es)| == |es| && |multiset(fs)| == |fs|;
    if es != [] {
      var e := es[0];
      assert e in multiset(fs);
      var i :| 0 <= i < |fs| && fs[i] == e;
      forall f | f in fs ensures f in all { assert f in multiset(fs); assert f in multiset(es); }
      ToFront(w, script, good, all, fs, i);
      var rest := fs[..i] + fs[i + 1..];
      TakeOut(es, fs, i);
      assert ([e] + rest)[1..] == rest;
      ArrayLawful();
      ActSound(ArrayRows, w, script(e));
      CommuteAt(script, good, all, e, e, w);
      AnyOrder(Act(ArrayRows, w, script(e)), script, good, all, es[1..], rest);
    }
  }

  lemma TakeOut(es: seq<Entry>, fs: seq<Entry>, i: nat)
    requires es != [] && i < |fs| && fs[i] == es[0] && multiset(es) == multiset(fs)
    ensures multiset(es[1..]) == multiset(fs[..i] + fs[i + 1..])
  {
    assert es == [es[0]] + es[1..] && fs == fs[..i] + [fs[i]] + fs[i + 1..];
    assert multiset(fs[..i] + fs[i + 1..]) == multiset(fs[..i]) + multiset(fs[i + 1..]);
    assert multiset(fs) == multiset(fs[..i]) + multiset{fs[i]} + multiset(fs[i + 1..]);
    assert multiset(es) == multiset{es[0]} + multiset(es[1..]);
    assert multiset(es) - multiset{es[0]} == multiset(es[1..]);
    assert multiset(fs) - multiset{es[0]} == multiset(fs[..i]) + multiset(fs[i + 1..]);
  }

  // ---- the entries of a row in different orders ----

  lemma {:induction false} EntriesAppend(row: Row, a: seq<nat>, b: seq<nat>)
    ensures EntriesAt(row, a + b) == EntriesAt(row, a) + EntriesAt(row, b)
    decreases |a|
  {
    if a == [] {
      assert a + b == b;
    } else {
      assert (a + b)[1..] == a[1..] + b;
      EntriesAppend(row, a[1..], b);
    }
  }

  lemma {:induction false} SameEntries(row: Row, a: seq<nat>, b: seq<nat>)
    requires forall i, j :: 0 <= i < j < |a| ==> a[i] != a[j]
    requires forall i, j :: 0 <= i < j < |b| ==> b[i] != b[j]
    requires forall f :: f in a <==> f in b
    ensures multiset(EntriesAt(row, a)) == multiset(EntriesAt(row, b))
    decreases |a|
  {
    hide EntriesAt;
    FirstMember(b);
    if a != [] {
      var x := a[0];
      assert x in a;
      var i :| 0 <= i < |b| && b[i] == x;
      var b1 := b[..i] + b[i + 1..];
      Without(a, b, i);
      SameEntries(row, a[1..], b1);
      EntriesOut(row, a, 0);
      EntriesOut(row, b, i);
      assert a[..0] + a[1..] == a[1..];
    }
  }

  lemma FirstMember(b: seq<nat>)
    ensures b != [] ==> b[0] in b
  {
  }

  /** The entries without one of the slots. */
  lemma EntriesOut(row: Row, a: seq<nat>, i: nat)
    requires i < |a|
    ensures multiset(EntriesAt(row, a))
         == multiset(if a[i] in row then [row[a[i]]] else []) + multiset(EntriesAt(row, a[..i] + a[i + 1..]))
  {
    var x, front, back := a[i], a[..i], a[i + 1..];
    var one := if x in row then [row[x]] else [];
    EntriesAppend(row, front, back);
    EntriesAppend(row, front, [x] + back);
    EntriesCons(row, x, back);
    hide EntriesAt;
    assert a == front + ([x] + back);
    Rejoin(EntriesAt(row, front), one, EntriesAt(row, back));
  }

  lemma EntriesCons(row: Row, x: nat, back: seq<nat>)
    ensures EntriesAt(row, [x] + back) == (if x in row then [row[x]] else []) + EntriesAt(row, back)
  {
    assert ([x] + back)[1..] == back;
  }

  lemma Rejoin(a: seq<Entry>, b: seq<Entry>, c: seq<Entry>)
    ensures multiset(a + (b + c)) == multiset(b) + multiset(a + c)
  {
  }

  lemma Without(a: seq<nat>, b: seq<nat>, i: nat)
    requires a != [] && i < |b| && b[i] == a[0]
    requires forall i, j :: 0 <= i < j < |a| ==> a[i] != a[j]
    requires forall i, j :: 0 <= i < j < |b| ==> b[i] != b[j]
    requires forall f :: f in a <==> f in b
    ensures var b1 := b[..i] + b[i + 1..];
      (forall f :: f in a[1..] <==> f in b1) && (forall k, l :: 0 <= k < l < |b1| ==> b1[k] != b1[l])
  {
    var b1 := b[..i] + b[i + 1..];
    forall f ensures f in b1 <==> f in b && f != a[0] {
      if f in b && f != a[0] {
        var k :| 0 <= k < |b| && b[k] == f;
        assert k < i ==> b1[k] == f;
        assert k > i ==> b1[k - 1] == f;
      }
    }
    forall f ensures f in a[1..] <==> f in a && f != a[0] {
      if f in a && f != a[0] {
        var k :| 0 <= k < |a| && a[k] == f;
        assert a[1..][k - 1] == f;
      }
    }
  }

  /** Both backends release the same entries, each in its order. */
  lemma SameRelease(h: Backend, w1: World, w2: World, call: Call)
    requires !h.HighWater? && Lawful(h) && SameView(w1, w2) && Bounded(w1.tables) && (call.RemoveCage? || call.EmptyForExec?)
    ensures var s, t := Begin(ArrayRows, w1, call), Begin(h, w2, call);
      multiset(s.todo) == multiset(t.todo) && s.onError == t.onError == Panic
      && (s.world.halt != Running || s.outcome == Done) && s.outcome == t.outcome
  {
    var c := call.cage;
    if c in w1.tables {
      var row := if call.RemoveCage? then w1.tables[c].row else Marked(w1.tables[c].row);
      SameList(h, row, |w1.log|, |w2.log|);
    }
    hide EntriesOf, KeysOf, Marked, Lawful;
  }

  lemma SameList(h: Backend, row: Row, m1: nat, m2: nat)
    requires !h.HighWater? && Lawful(h) && forall f :: f in row ==> f < FD_PER_PROCESS_MAX
    ensures multiset(EntriesOf(ArrayRows, row, m1)) == multiset(EntriesOf(h, row, m2))
  {
    if h.HashMaps? {
      assert Lists(h.iter(row, m2), row);
      hide EntriesAt;
      SameEntries(row, Ascending(row, 0), h.iter(row, m2));
    }
  }

  /**
   Removing a table or the descriptors marked close-on-exec, with handlers that choose by the
   entry: whatever order the maps iterate in, the backends agree if what the handlers do
   commutes. `good` holds for the states the handlers can meet.
   */
  lemma ByEntryAgrees(h: Backend, w1: World, w2: World, call: Call, script: Entry -> Reaction, good: World -> bool)
    requires h.HashMaps? && Lawful(h) && Sound(ArrayRows, w1) && Sound(h, w2) && SameView(w1, w2) && w1.halt == Running
    requires call.RemoveCage? || call.EmptyForExec?
    requires var s := Begin(ArrayRows, w1, call);
      good(s.world) && TameAll(script, s.todo) && Commute(script, good, s.todo)
    ensures var s, t := Begin(ArrayRows, w1, call), Begin(h, w2, call);
      Agree(Run(ArrayRows, w1, Op(call, ByEntry(script, s.todo))), Run(h, w2, Op(call, ByEntry(script, t.todo))))
  {
    var s, t := Begin(ArrayRows, w1, call), Begin(h, w2, call);
    BothGood(h, w1, w2, call);
    BeginAlike(h, w1, w2, call);
    SameRelease(h, w1, w2, call);
    ArrayLawful();
    hide Begin, Sound, Lawful, Drain, KeysOf, Commute, Acts, ByEntry, Bounded;
    SameMembers(s.todo, t.todo);
    AnyOrder(s.world, script, good, s.todo, s.todo, t.todo);
    TameTail(script, s.todo, s.todo, t.todo);
    TameTail(script, s.todo, s.todo, s.todo);
    hide TameAll;
    DrainIsActs(ArrayRows, s.world, s.world, s.todo, script, s.outcome);
    DrainIsActs(h, s.world, t.world, t.todo, script, t.outcome);
  }

  lemma SameMembers(es: seq<Entry>, fs: seq<Entry>)
    requires multiset(es) == multiset(fs)
    ensures Among(fs, es) && Among(es, es)
  {
    forall f | f in fs ensures f in es { assert f in multiset(fs); assert f in multiset(es); }
  }

  // ---- handlers that make no calls ----

  /**
   Handlers that make no calls here, whatever they return: the backends agree on every order.
   If one of them fails the removal panics on both.
   */
  lemma QuietHandlersAgree(h: Backend, w1: World, w2: World, call: Call, script: Entry -> Reaction)
    requires h.HashMaps? && Lawful(h) && Sound(ArrayRows, w1) && Sound(h, w2) && SameView(w1, w2) && w1.halt == Running
    requires call.RemoveCage? || call.EmptyForExec?
    requires forall e :: e in Begin(ArrayRows, w1, call).todo ==> script(e).ops == []
    ensures var s, t := Begin(ArrayRows, w1, call), Begin(h, w2, call);
      Agree(Run(ArrayRows, w1, Op(call, ByEntry(script, s.todo))), Run(h, w2, Op(call, ByEntry(script, t.todo))))
  {
    var s := Begin(ArrayRows, w1, call);
    hide Begin, Sound, Lawful, Run, ByEntry;
    var good := (w: World) => true;
    forall e, f, w | e in s.todo && f in s.todo ensures Swaps(script, good, e, f, w) {
      QuietSwap(w, script(e), script(f));
    }
    ByEntryAgrees(h, w1, w2, call, script, good);
  }

  lemma QuietSwap(w: World, r: Reaction, q: Reaction)
    requires r.ops == [] && q.ops == []
    ensures Act(ArrayRows, Act(ArrayRows, w, r), q) == Act(ArrayRows, Act(ArrayRows, w, q), r)
  {
    var w1 := w.(halt := HandlerFailed);
    QuietReact(w, r);
    QuietReact(w, q);
    QuietReact(w1, r);
    QuietReact(w1, q);
    hide React;
  }

  lemma QuietReact(w: World, r: Reaction)
    requires r.ops == []
    ensures React(ArrayRows, w, r) == w
  {
  }

  // ---- handlers with a cage of their own ----

  /** A call about the descriptors of one cage, in range. */
  predicate LocalCall(call: Call, c: nat) {
    && InRange(call)
    && match call
       case Translate(d, _) => d == c
       case SetCloexec(d, _, _) => d == c
       case SetPerfdinfo(d, _, _) => d == c
       case Close(d, _) => d == c
       case GetUnused(d, e) => d == c && e.fdkind != FDT_KINDEPOLL
       case GetUnusedFrom(d, e, _) => d == c && e.fdkind != FDT_KINDEPOLL
       case GetSpecific(d, _, e) => d == c && e.fdkind != FDT_KINDEPOLL
       case _ => false
  }

  /** The call, and all calls of handlers it triggers, are about that cage. */
  predicate Local(op: Op, c: nat) {
    LocalCall(op.call, c) && forall r :: r in op.reactions ==> LocalReaction(r, c)
  }

  predicate LocalReaction(r: Reaction, c: nat) {
    forall op :: op in r.ops ==> Local(op, c)
  }

  /** At most the table of cage `c` has changed in the view. */
  predicate Beside(w: World, w1: World, c: nat) {
    c in w1.tables && w1 == w.(tables := w.tables[c := w1.tables[c]], counts := w1.counts, log := w1.log, inFlight := w1.inFlight)
  }

  /** Two states in which a cage has the same table. */
  predicate Level(w: World, v: World, c: nat) {
    c in w.tables && c in v.tables && w.tables[c] == v.tables[c] && w.halt == v.halt == Running
  }

  lemma BesideTwice(w: World, w1: World, w2: World, c: nat)
    requires Beside(w, w1, c) && Beside(w1, w2, c)
    ensures Beside(w, w2, c)
  {
    assert w.tables[c := w1.tables[c]][c := w2.tables[c]] == w.tables[c := w2.tables[c]];
  }

  lemma LocalPut(w: World, v: World, c: nat, f: nat, e: Entry)
    requires Level(w, v, c)
    ensures var x, y := Install(w, c, f, e, false), Install(v, c, f, e, false); Beside(w, x, c) && Beside(v, y, c) && Level(x, y, c)
  {
    hide KeyOf;
  }

  lemma LocalRow(w: World, v: World, c: nat, row: Row)
    requires Level(w, v, c)
    ensures var x, y := WithRow(w, c, row), WithRow(v, c, row); Beside(w, x, c) && Beside(v, y, c) && Level(x, y, c)
  {
  }

  lemma BesideSame(w: World, c: nat)
    requires c in w.tables
    ensures Beside(w, w, c)
  {
    assert w.tables[c := w.tables[c]] == w.tables;
  }

  /** First parts that do the same to one cage and nothing to others. */
  ghost predicate SideBySide(w: World, v: World, s: Start, t: Start, c: nat) {
    && Beside(w, s.world, c) && Beside(v, t.world, c) && Level(s.world, t.world, c)
    && s.todo == t.todo && s.onError == t.onError && (s.todo == [] || s.onError == Return)
  }

  lemma LocalUnused(w: World, v: World, c: nat, e: Entry, start: nat)
    requires Level(w, v, c)
    ensures SideBySide(w, v, BeginGetUnused(ArrayRows, w, c, e), BeginGetUnused(ArrayRows, v, c, e), c)
    ensures SideBySide(w, v, BeginGetUnusedFrom(ArrayRows, w, c, e, start), BeginGetUnusedFrom(ArrayRows, v, c, e, start), c)
  {
    BesideSame(w, c);
    BesideSame(v, c);
    var row := w.tables[c].row;
    if LowestVacant(row, 0).Some? {
      LocalPut(w, v, c, LowestVacant(row, 0).value, e);
    }
    if LowestVacant(row, start).Some? {
      LocalPut(w, v, c, LowestVacant(row, start).value, e);
    }
    hide LowestVacant, Install, Beside;
  }

  lemma LocalSpecific(w: World, v: World, c: nat, f: nat, e: Entry)
    requires Level(w, v, c) && f != FD_PER_PROCESS_MAX
    ensures SideBySide(w, v, BeginGetSpecific(ArrayRows, w, c, f, e), BeginGetSpecific(ArrayRows, v, c, f, e), c)
  {
    BesideSame(w, c);
    BesideSame(v, c);
    if f < FD_PER_PROCESS_MAX {
      SpecificBeside(w, c, f, e);
      SpecificBeside(v, c, f, e);
    }
    hide Beside, Increment, KeyOf;
  }

  /** A specific descriptor of one cage. */
  lemma SpecificBeside(w: World, c: nat, f: nat, e: Entry)
    requires c in w.tables && f < FD_PER_PROCESS_MAX && w.halt == Running
    ensures var s, t := BeginGetSpecific(ArrayRows, w, c, f, e), w.tables[c];
      && Beside(w, s.world, c) && s.world.tables[c] == Table(t.row[f := e], t.high) && s.world.halt == Running
      && s.onError == Return && s.todo == if f in t.row then [t.row[f]] else []
  {
    var w0 := Increment(w, e);
    assert w0 == w.(counts := w0.counts, log := w0.log);
    hide KeyOf, Increment;
  }

  lemma LocalClose(w: World, v: World, c: nat, f: nat)
    requires Level(w, v, c)
    ensures SideBySide(w, v, BeginClose(w, c, f), BeginClose(v, c, f), c)
    ensures SideBySide(w, v, BeginTranslate(w, c, f), BeginTranslate(v, c, f), c)
  {
    BesideSame(w, c);
    BesideSame(v, c);
    if f in w.tables[c].row {
      LocalRow(w, v, c, w.tables[c].row - {f});
    }
    hide KeyOf;
  }

  lemma LocalSet(w: World, v: World, c: nat, f: nat, change: Change)
    requires Level(w, v, c) && f < FD_PER_PROCESS_MAX
    ensures SideBySide(w, v, BeginSet(ArrayRows, w, c, f, change), BeginSet(ArrayRows, v, c, f, change), c)
  {
    BesideSame(w, c);
    BesideSame(v, c);
    if f in w.tables[c].row {
      LocalRow(w, v, c, w.tables[c].row[f := Apply(change, w.tables[c].row[f])]);
    }
    hide Apply, WithRow, Beside;
  }

  lemma BeginLocal(w: World, v: World, call: Call, c: nat)
    requires Level(w, v, c) && LocalCall(call, c)
    ensures SideBySide(w, v, Begin(ArrayRows, w, call), Begin(ArrayRows, v, call), c)
  {
    hide SideBySide, Level, BeginTranslate, BeginGetUnused, BeginGetUnusedFrom, BeginGetSpecific, BeginSet, BeginClose;
    match call
    case Translate(_, f) => LocalClose(w, v, c, f);
    case Close(_, f) => LocalClose(w, v, c, f);
    case SetCloexec(_, f, flag) => LocalSet(w, v, c, f, Cloexec(flag));
    case SetPerfdinfo(_, f, info) => LocalSet(w, v, c, f, Perfdinfo(info));
    case GetUnused(_, e) => LocalUnused(w, v, c, e, 0);
    case GetUnusedFrom(_, e, start) => LocalUnused(w, v, c, e, start);
    case GetSpecific(_, f, e) => LocalSpecific(w, v, c, f, e);
  }

  lemma ViewBeside(w: World, w1: World, c: nat)
    requires c in w.tables && SameView(w1, w)
    ensures Beside(w, w1, c)
  {
    BesideSame(w, c);
  }

  lemma {:induction false} RunLocal(w: World, v: World, op: Op, c: nat)
    requires Sound(ArrayRows, w) && Sound(ArrayRows, v) && Level(w, v, c) && Local(op, c)
    ensures var x, y := Run(ArrayRows, w, op).0, Run(ArrayRows, v, op).0; Beside(w, x, c) && Beside(v, y, c) && Level(x, y, c)
    decreases op, 0, 0
  {
    BeginLocal(w, v, op.call, c);
    BothGood(ArrayRows, w, v, op.call);
    var s, t := Begin(ArrayRows, w, op.call), Begin(ArrayRows, v, op.call);
    hide Begin, Sound, LocalCall, KeysOf, Drain;
    DrainLocal(s.world, t.world, s.todo, op.reactions, s.onError, s.outcome, t.outcome, c);
    hide Level;
    BesideTwice(w, s.world, Run(ArrayRows, w, op).0, c);
    BesideTwice(v, t.world, Run(ArrayRows, v, op).0, c);
  }

  lemma {:induction false} DrainLocal(w: World, v: World, todo: seq<Entry>, rs: seq<Reaction>, onError: OnError, ok: Outcome, ok1: Outcome, c: nat)
    requires Sound(ArrayRows, w) && Sound(ArrayRows, v) && Level(w, v, c) && forall r :: r in rs ==> LocalReaction(r, c)
    requires KeysOf(todo) <= w.inFlight && KeysOf(todo) <= v.inFlight && (todo == [] || onError == Return)
    ensures var x, y := Drain(ArrayRows, w, todo, rs, onError, ok).0, Drain(ArrayRows, v, todo, rs, onError, ok1).0;
      Beside(w, x, c) && Beside(v, y, c) && Level(x, y, c)
    decreases rs, |todo|, 1
  {
    hide Sound, Drain, KeysOf, Released;
    if todo == [] {
      DrainEnd(ArrayRows, w, todo, rs, onError, ok);
      DrainEnd(ArrayRows, v, todo, rs, onError, ok1);
      BesideSame(w, c);
      BesideSame(v, c);
    } else {
      FirstKey(w.inFlight, todo);
      FirstKey(v.inFlight, todo);
      ReleasedLocal(w, v, todo[0], rs, c);
      DrainStep(ArrayRows, w, todo, rs, onError, ok);
      DrainStep(ArrayRows, v, todo, rs, onError, ok1);
      var x, y := Released(ArrayRows, w, todo[0], rs), Released(ArrayRows, v, todo[0], rs);
      assert forall r :: r in Rest(rs) ==> r in rs;
      hide LocalReaction;
      if Returned(rs) == 0 {
        DrainLocal(x, y, todo[1..], Rest(rs), onError, ok, ok1, c);
        hide Level;
        BesideTwice(w, x, Drain(ArrayRows, x, todo[1..], Rest(rs), onError, ok).0, c);
        BesideTwice(v, y, Drain(ArrayRows, y, todo[1..], Rest(rs), onError, ok1).0, c);
      }
    }
  }

  lemma {:induction false} ReleasedLocal(w: World, v: World, e: Entry, rs: seq<Reaction>, c: nat)
    requires Sound(ArrayRows, w) && Sound(ArrayRows, v) && Level(w, v, c) && forall r :: r in rs ==> LocalReaction(r, c)
    requires w.inFlight[KeyOf(e)] > 0 && v.inFlight[KeyOf(e)] > 0
    ensures var x, y := Released(ArrayRows, w, e, rs), Released(ArrayRows, v, e, rs);
      && Beside(w, x, c) && Beside(v, y, c) && Level(x, y, c) && Sound(ArrayRows, x) && Sound(ArrayRows, y)
      && x.inFlight == w.inFlight - multiset{KeyOf(e)} && y.inFlight == v.inFlight - multiset{KeyOf(e)}
    decreases rs, 0, 0
  {
    ArrayLawful();
    DecrementSound(ArrayRows, w, e);
    DecrementSound(ArrayRows, v, e);
    DecrementView(ArrayRows, w, e);
    DecrementView(ArrayRows, v, e);
    var w1, v1 := Decrement(w, e), Decrement(v, e);
    hide Sound, Decrement, React, Lawful;
    ViewBeside(w, w1, c);
    ViewBeside(v, v1, c);
    if rs != [] {
      assert LocalReaction(rs[0], c);
      ReactSound(ArrayRows, w1, rs[0]);
      ReactSound(ArrayRows, v1, rs[0]);
      ReactLocal(w1, v1, rs[0], c);
      hide LocalReaction;
      BesideTwice(w, w1, React(ArrayRows, w1, rs[0]), c);
      BesideTwice(v, v1, React(ArrayRows, v1, rs[0]), c);
    }
  }

  lemma {:induction false} ReactLocal(w: World, v: World, r: Reaction, c: nat)
    requires Sound(ArrayRows, w) && Sound(ArrayRows, v) && Level(w, v, c) && LocalReaction(r, c)
    ensures var x, y := React(ArrayRows, w, r), React(ArrayRows, v, r); Beside(w, x, c) && Beside(v, y, c) && Level(x, y, c)
    decreases r, 0, 0
  {
    RunAllLocal(w, v, r.ops, c);
  }

  lemma {:induction false} RunAllLocal(w: World, v: World, ops: seq<Op>, c: nat)
    requires Sound(ArrayRows, w) && Sound(ArrayRows, v) && Level(w, v, c) && forall op :: op in ops ==> Local(op, c)
    ensures var x, y := RunAll(ArrayRows, w, ops), RunAll(ArrayRows, v, ops); Beside(w, x, c) && Beside(v, y, c) && Level(x, y, c)
    decreases ops, 0, 0
  {
    if ops == [] {
      BesideSame(w, c);
      BesideSame(v, c);
    } else {
      assert Local(ops[0], c);
      ArrayLawful();
      RunSound(ArrayRows, w, ops[0]);
      RunSound(ArrayRows, v, ops[0]);
      hide Sound, Run, Lawful;
      RunLocal(w, v, ops[0], c);
      var x, y := Run(ArrayRows, w, ops[0]).0, Run(ArrayRows, v, ops[0]).0;
      RunAllLocal(x, y, ops[1..], c);
      hide Local, Level;
      BesideTwice(w, x, RunAll(ArrayRows, x, ops[1..]), c);
      BesideTwice(v, y, RunAll(ArrayRows, y, ops[1..]), c);
    }
  }

  /** Handlers at work on different cages do not see each other. */
  lemma LocalSwap(w: World, r: Reaction, q: Reaction, c: nat, d: nat)
    requires Sound(ArrayRows, w) && w.halt == Running && c in w.tables && d in w.tables && c != d
    requires LocalReaction(r, c) && LocalReaction(q, d)
    ensures var x, y := React(ArrayRows, w, r), React(ArrayRows, w, q);
      SameView(React(ArrayRows, x, q), React(ArrayRows, y, r)) && x.halt == Running && React(ArrayRows, x, q).halt == Running
      && x.tables.Keys == w.tables.Keys
  {
    ArrayLawful();
    ReactSound(ArrayRows, w, r);
    ReactSound(ArrayRows, w, q);
    ReactLocal(w, w, r, c);
    ReactLocal(w, w, q, d);
    hide Sound, Lawful, React, LocalReaction;
    var x, y := React(ArrayRows, w, r), React(ArrayRows, w, q);
    ReactLocal(x, w, q, d);
    ReactLocal(y, w, r, c);
    BothSides(w, x, y, React(ArrayRows, x, q), React(ArrayRows, y, r), c, d);
  }

  lemma BothSides(w: World, x: World, y: World, x1: World, y1: World, c: nat, d: nat)
    requires Beside(w, x, c) && Beside(w, y, d) && Beside(x, x1, d) && Beside(y, y1, c) && c != d && c in w.tables && d in w.tables
    requires x1.tables[d] == y.tables[d] && y1.tables[c] == x.tables[c]
    ensures SameView(x1, y1) && x.tables.Keys == w.tables.Keys
  {
    assert w.tables[c := x.tables[c]][d := y.tables[d]] == w.tables[d := y.tables[d]][c := x.tables[c]];
  }

  /**
   Handlers that call back in, each about the descriptors of a cage of its own and at any
   depth, and succeed: the backends agree on every order.
   */
  lemma OwnCagesAgree(h: Backend, w1: World, w2: World, call: Call, script: Entry -> Reaction, cage: Entry -> nat)
    requires h.HashMaps? && Lawful(h) && Sound(ArrayRows, w1) && Sound(h, w2) && SameView(w1, w2) && w1.halt == Running
    requires call.RemoveCage? || call.EmptyForExec?
    requires var s := Begin(ArrayRows, w1, call);
      && TameAll(script, s.todo)
      && (forall e :: e in s.todo ==> script(e).errno == 0 && LocalReaction(script(e), cage(e)) && cage(e) in s.world.tables)
      && (forall e, f :: e in s.todo && f in s.todo && e != f ==> cage(e) != cage(f))
    ensures var s, t := Begin(ArrayRows, w1, call), Begin(h, w2, call);
      Agree(Run(ArrayRows, w1, Op(call, ByEntry(script, s.todo))), Run(h, w2, Op(call, ByEntry(script, t.todo))))
  {
    var s := Begin(ArrayRows, w1, call);
    if s.world.halt == Running {
      hide Begin, Lawful, Run, ByEntry, Sound;
      var good := (w: World) => w.halt == Running && forall e :: e in s.todo ==> cage(e) in w.tables;
      forall e, f, w | e in s.todo && f in s.todo ensures Swaps(script, good, e, f, w) {
        if Sound(ArrayRows, w) && good(w) {
          OwnSwap(w, script(e), script(f), cage(e), cage(f));
        }
      }
      ByEntryAgrees(h, w1, w2, call, script, good);
    } else {
      assert s.todo == [] && Begin(h, w2, call).todo == [];
    }
  }

  lemma OwnSwap(w: World, r: Reaction, q: Reaction, c: nat, d: nat)
    requires Sound(ArrayRows, w) && w.halt == Running && c in w.tables && d in w.tables && (c == d ==> r == q)
    requires LocalReaction(r, c) && LocalReaction(q, d) && r.errno == 0 && q.errno == 0
    ensures var x, y := Act(ArrayRows, w, r), Act(ArrayRows, w, q);
      && x.halt == Running && x.tables.Keys == w.tables.Keys
      && SameView(Act(ArrayRows, x, q), Act(ArrayRows, y, r))
  {
    if c != d {
      LocalSwap(w, r, q, c, d);
    } else {
      ReactLocal(w, w, r, c);
      hide React;
    }
  }

  // ---- handlers that do not commute ----

  /** The handler of `e0` creates cage 2, that of any other entry uses it. */
  function Creates(e0: Entry): Entry -> Reaction {
    (e: Entry) => Reaction([if e == e0 then Op(InitCage(2), []) else Op(Translate(2, 0), [])], 0)
  }

  lemma ByEntryTwo(script: Entry -> Reaction, a: Entry, b: Entry)
    ensures ByEntry(script, [a, b]) == [script(a), script(b)]
  {
    assert [a, b][1..] == [b] && [b][1..] == [];
    assert ByEntry(script, [b]) == [script(b)] + [];
  }

  /**
   Handlers that choose what to do by the entry see the map's order: with one that creates
   cage 2 and one that uses it, removing a cage succeeds on the array and panics on a map
   that yields slot 1 first.
   */
  lemma OrderMattersByEntry(h: Backend, e0: Entry, e1: Entry)
    requires h.HashMaps? && e0.fdkind < FDT_KINDMAX && e1.fdkind < FDT_KINDMAX && KeyOf(e0) != KeyOf(e1)
    requires h.iter(map[0 := e0, 1 := e1], 2) == [1, 0]
    ensures
      var ops := [Op(InitCage(1), []), Op(GetSpecific(1, 0, e0), []), Op(GetSpecific(1, 1, e1), [])];
      var w := RunAll(ArrayRows, EMPTY_WORLD, ops);
      var row := map[0 := e0, 1 := e1];
      && RunAll(h, EMPTY_WORLD, ops) == w && |w.log| == 2 && w.tables == map[1 := Table(row, 0)]
      && Run(ArrayRows, w, Op(RemoveCage(1), ByEntry(Creates(e0), EntriesOf(ArrayRows, row, 2)))).1 == Done
      && Run(h, w, Op(RemoveCage(1), ByEntry(Creates(e0), EntriesOf(h, row, 2)))).1 == Panicked
  {
    var row := map[0 := e0, 1 := e1];
    var r0, r1 := Reaction([Op(InitCage(2), [])], 0), Reaction([Op(Translate(2, 0), [])], 0);
    assert e0 != e1;
    assert Creates(e0)(e0) == r0 && Creates(e0)(e1) == r1;
    ByEntryTwo(Creates(e0), e0, e1);
    ByEntryTwo(Creates(e0), e1, e0);
    TwoEntries(ArrayRows, e0, e1);
    TwoEntries(h, e0, e1);
    AscendingTwo(row);
    ListTwo(row, e0, e1);
    hide ByEntry, Creates, RunAll, EntriesAt, Ascending;
    RemoveInOrder(ArrayRows, TwoSlots(e0, e1), e0, e1, r0, r1);
    RemoveInOrder(h, TwoSlots(e0, e1), e0, e1, r0, r1);
    hide Run;
  }

  function TwoSlots(e0: Entry, e1: Entry): World {
    EMPTY_WORLD.(tables := map[1 := Table(map[0 := e0, 1 := e1], 0)], counts := map[KeyOf(e0) := 1, KeyOf(e1) := 1],
                 log := [Installed(KeyOf(e0)), Installed(KeyOf(e1))])
  }

  lemma TwoEntries(b: Backend, e0: Entry, e1: Entry)
    requires !b.HighWater? && e0.fdkind < FDT_KINDMAX && e1.fdkind < FDT_KINDMAX && KeyOf(e0) != KeyOf(e1)
    ensures RunAll(b, EMPTY_WORLD, [Op(InitCage(1), []), Op(GetSpecific(1, 0, e0), []), Op(GetSpecific(1, 1, e1), [])])
         == TwoSlots(e0, e1)
  {
    var w0 := Filled(EMPTY_WORLD, map[]);
    var w1 := Filled(Increment(w0, e0), map[0 := e0]);
    InitRun(b);
    PutRun(b, w0, map[], 0, e0);
    PutRun(b, w1, map[0 := e0], 1, e1);
    ThreeRuns(b, EMPTY_WORLD, Op(InitCage(1), []), Op(GetSpecific(1, 0, e0), []), Op(GetSpecific(1, 1, e1), []));
    assert Filled(Increment(w1, e1), map[0 := e0][1 := e1]) == TwoSlots(e0, e1);
    hide Run, RunAll, Outcomes;
  }

  lemma AscendingTwo(row: Row)
    requires row.Keys == {0, 1}
    ensures Ascending(row, 0) == [0, 1]
  {
    NoneAbove(row, 2);
    assert Ascending(row, 1) == [1] + [];
  }

  lemma ListTwo(row: Row, e0: Entry, e1: Entry)
    requires row == map[0 := e0, 1 := e1]
    ensures EntriesAt(row, [0, 1]) == [e0, e1] && EntriesAt(row, [1, 0]) == [e1, e0]
  {
    assert [0, 1][1..] == [1] && [1][1..] == [] && [1, 0][1..] == [0] && [0][1..] == [];
    assert EntriesAt(row, [1]) == [e1] + [] && EntriesAt(row, [0]) == [e0] + [];
  }

  /** The two releases, one after the other. */
  lemma RemoveInOrder(b: Backend, w: World, e0: Entry, e1: Entry, r0: Reaction, r1: Reaction)
    requires !b.HighWater? && w == TwoSlots(e0, e1) && KeyOf(e0) != KeyOf(e1)
    requires r0 == Reaction([Op(InitCage(2), [])], 0) && r1 == Reaction([Op(Translate(2, 0), [])], 0)
    ensures EntriesOf(b, map[0 := e0, 1 := e1], 2) == [e0, e1] ==> Run(b, w, Op(RemoveCage(1), [r0, r1])).1 == Done
    ensures EntriesOf(b, map[0 := e0, 1 := e1], 2) == [e1, e0] ==> Run(b, w, Op(RemoveCage(1), [r1, r0])).1 == Panicked
  {
    hide EntriesOf, KeysOf;
    var s := Begin(b, w, RemoveCage(1));
    assert s.todo == EntriesOf(b, map[0 := e0, 1 := e1], 2) && s.outcome == Done && s.onError == Panic;
    assert s.world.tables == map[] && s.world.halt == Running && s.world.counts == w.counts;
    hide Begin, Drain;
    if s.todo == [e0, e1] {
      FirstWorks(b, s.world, e0, e1, r0, r1);
    } else if s.todo == [e1, e0] {
      FirstPanics(b, s.world, e0, e1, r0, r1);
    }
  }

  lemma FirstWorks(b: Backend, w: World, e0: Entry, e1: Entry, r0: Reaction, r1: Reaction)
    requires w.tables == map[] && w.halt == Running && w.counts == map[KeyOf(e0) := 1, KeyOf(e1) := 1] && KeyOf(e0) != KeyOf(e1)
    requires r0 == Reaction([Op(InitCage(2), [])], 0) && r1 == Reaction([Op(Translate(2, 0), [])], 0)
    ensures Drain(b, w, [e0, e1], [r0, r1], Panic, Done).1 == Done
  {
    var w0 := Decrement(w, e0);
    LastRelease(w, e0);
    hide Decrement, Drain, Run;
    DrainStep(b, w, [e0, e1], [r0, r1], Panic, Done);
    ReactOne(b, w0, r0.ops[0]);
    OneCall(b, w0, r0.ops[0]);
    var w1 := w0.(tables := map[2 := Table(map[], 0)]);
    assert Released(b, w, e0, [r0, r1]) == w1;
    LastRelease(w1, e1);
    DrainStep(b, w1, [e1], [r1], Panic, Done);
    ReactOne(b, Decrement(w1, e1), r1.ops[0]);
    OneCall(b, Decrement(w1, e1), r1.ops[0]);
    DrainEnd(b, Decrement(w1, e1), [], [], Panic, Done);
    assert [e0, e1][1..] == [e1] && [e1][1..] == [] && [r0, r1][1..] == [r1] && [r1][1..] == [];
  }

  lemma LastRelease(w: World, e: Entry)
    requires KeyOf(e) in w.counts && w.counts[KeyOf(e)] == 1
    ensures var w1 := Decrement(w, e); w1.halt == w.halt && w1.tables == w.tables && w1.counts == w.counts - {KeyOf(e)}
  {
    hide BooksOf;
  }

  lemma FirstPanics(b: Backend, w: World, e0: Entry, e1: Entry, r0: Reaction, r1: Reaction)
    requires w.tables == map[] && w.halt == Running && w.counts == map[KeyOf(e0) := 1, KeyOf(e1) := 1] && KeyOf(e0) != KeyOf(e1)
    requires r0 == Reaction([Op(InitCage(2), [])], 0) && r1 == Reaction([Op(Translate(2, 0), [])], 0)
    ensures Drain(b, w, [e1, e0], [r1, r0], Panic, Done).1 == Panicked
  {
    LastRelease(w, e1);
    hide Decrement, Drain, Run;
    DrainStep(b, w, [e1, e0], [r1, r0], Panic, Done);
    ReactOne(b, Decrement(w, e1), r1.ops[0]);
    OneCall(b, Decrement(w, e1), r1.ops[0]);
  }

  lemma ReactOne(b: Backend, w: World, op: Op)
    ensures React(b, w, Reaction([op], 0)) == Run(b, w, op).0
  {
    hide Run;
    assert [op][1..] == [];
    assert RunAll(b, w, [op]) == RunAll(b, Run(b, w, op).0, []);
  }

  /** The two calls the handlers make. */
  lemma OneCall(b: Backend, w: World, op: Op)
    requires w.halt == Running && (op == Op(InitCage(2), []) || op == Op(Translate(2, 0), []))
    ensures op.call.InitCage? && 2 !in w.tables ==> Run(b, w, op).0 == w.(tables := w.tables[2 := Table(map[], 0)])
    ensures op.call.Translate? ==> Run(b, w, op).0 == if 2 in w.tables then w else w.(halt := UnknownCage)
  {
    PlainCall(b, w, op);
  }
}
