/** Which cages have a descriptor table: only a few calls make one or take it away. */
module CageDescriptors {
  import opened FdTypes
  import opened FdSemantics
  import opened FdSteps
  import FdBackends

  datatype Effect = Making | Removing

  /** Whether a call makes cage `c` a table, or takes its table away. */
  predicate Does(call: Call, c: nat, what: Effect) {
    match what
    case Making => (call.InitCage? && call.cage == c) || (call.CopyTable? && call.newCage == c)
    case Removing => call.RemoveCage? && call.cage == c
  }

  /** Neither the call nor any call of a handler it triggers does that. */
  predicate Never(op: Op, c: nat, what: Effect)
    decreases op, 0
  {
    !Does(op.call, c, what) && NeverIn(op.reactions, c, what)
  }

  predicate NeverIn(rs: seq<Reaction>, c: nat, what: Effect)
    decreases rs, 0
  {
    rs == [] || (NeverBy(rs[0], c, what) && NeverIn(rs[1..], c, what))
  }

  predicate NeverBy(r: Reaction, c: nat, what: Effect)
    decreases r, 0
  {
    NeverAll(r.ops, c, what)
  }

  predicate NeverAll(ops: seq<Op>, c: nat, what: Effect)
    decreases ops, 0
  {
    ops == [] || (Never(ops[0], c, what) && NeverAll(ops[1..], c, what))
  }

  /** What is left undone: no new table for `c`, or none taken away. */
  predicate Stays(w: World, w1: World, c: nat, what: Effect) {
    match what
    case Making => c in w1.tables ==> c in w.tables
    case Removing => c in w.tables ==> c in w1.tables
  }

  lemma UnusedKeys(b: Backend, w: World, d: nat, e: Entry)
    ensures BeginGetUnused(b, w, d, e).world.tables.Keys == w.tables.Keys
  {
    hide LowestVacant, KeyOf;
  }

  lemma UnusedFromKeys(b: Backend, w: World, d: nat, e: Entry, f: nat)
    ensures BeginGetUnusedFrom(b, w, d, e, f).world.tables.Keys == w.tables.Keys
  {
    hide LowestVacant, KeyOf;
  }

  lemma SpecificKeys(b: Backend, w: World, d: nat, f: nat, e: Entry)
    ensures BeginGetSpecific(b, w, d, f, e).world.tables.Keys == w.tables.Keys
  {
    hide KeyOf;
  }

  lemma CreateKeys(b: Backend, w: World, d: nat, cloexec: bool)
    ensures BeginEpollCreate(b, w, d, cloexec).world.tables.Keys == w.tables.Keys
  {
    UnusedKeys(b, w, d, Entry(FDT_KINDEPOLL, w.nextEpoll, cloexec, 0));
    hide BeginGetUnused;
  }

  lemma RecordKeys(b: Backend, w: World, d: nat, f: nat, op: EpollOp, g: nat)
    ensures BeginEpollCtl(b, w, d, f, op, g).world.tables == w.tables
    ensures BeginEpollWait(b, w, d, f).world.tables == w.tables
  {
    hide Control, EpollNumber;
  }

  lemma AddUnderKeys(b: Backend, w: World, d: nat, f: nat, kind: nat, under: nat)
    ensures BeginEpollAddUnder(b, w, d, f, kind, under).world.tables == w.tables
  {
    hide EpollNumber;
  }

  lemma TableKeys(b: Backend, w: World, d: nat, n: nat)
    ensures w.tables.Keys <= BeginInit(w, d).world.tables.Keys <= w.tables.Keys + {d}
    ensures w.tables.Keys <= BeginCopyTable(b, w, d, n).world.tables.Keys <= w.tables.Keys + {n}
  {
    hide EntriesOf, IncrementAll;
  }

  lemma ReleaseKeys(b: Backend, w: World, d: nat)
    ensures BeginRemove(b, w, d).world.tables.Keys == w.tables.Keys - {d}
    ensures BeginExec(b, w, d).world.tables.Keys == w.tables.Keys
  {
    hide EntriesOf, KeysOf, Marked;
  }

  lemma SlotKeys(b: Backend, w: World, d: nat, f: nat, change: Change)
    ensures BeginClose(w, d, f).world.tables.Keys == w.tables.Keys
    ensures BeginSet(b, w, d, f, change).world.tables.Keys == w.tables.Keys
  {
    hide Apply;
  }

  /** A call before handlers run. */
  lemma BeginStays(b: Backend, w: World, call: Call, c: nat, what: Effect)
    requires !Does(call, c, what)
    ensures Stays(w, Begin(b, w, call).world, c, what)
  {
    hide Foreign, BeginInit, BeginGetUnused, BeginGetUnusedFrom, BeginGetSpecific, BeginSet, BeginCopyTable, BeginRemove, BeginExec,
      BeginClose, BeginEpollCreate, BeginEpollAddUnder, BeginEpollCtl, BeginEpollWait;
    match call
    case InitCage(d) => TableKeys(b, w, d, 0);
    case Translate(_, _) =>
    case GetUnused(d, e) => UnusedKeys(b, Noting(w, e), d, e);
    case GetUnusedFrom(d, e, start) => UnusedFromKeys(b, Noting(w, e), d, e, start);
    case GetSpecific(d, f, e) => SpecificKeys(b, Noting(w, e), d, f, e);
    case SetCloexec(d, f, flag) => SlotKeys(b, w, d, f, Cloexec(flag));
    case SetPerfdinfo(d, f, info) => SlotKeys(b, w, d, f, Perfdinfo(info));
    case CopyTable(d, n) => TableKeys(b, w, d, n);
    case RemoveCage(d) => ReleaseKeys(b, w, d);
    case EmptyForExec(d) => ReleaseKeys(b, w, d);
    case Close(d, f) => SlotKeys(b, w, d, f, Cloexec(false));
    case EpollCreate(d, cloexec) => CreateKeys(b, w, d, cloexec);
    case EpollAddUnder(d, f, kind, under) => AddUnderKeys(b, w, d, f, kind, under);
    case EpollCtl(d, epfd, op, f) => RecordKeys(b, w, d, epfd, op, f);
    case EpollWait(d, epfd) => RecordKeys(b, w, d, epfd, Del, 0);
  }

  /** A whole call, handlers included. */
  lemma {:induction false} RunStays(b: Backend, w: World, op: Op, c: nat, what: Effect)
    requires Never(op, c, what)
    ensures Stays(w, Run(b, w, op).0, c, what)
    decreases op, 0
  {
    hide Begin;
    if w.halt == Running {
      BeginStays(b, w, op.call, c, what);
      var s := Begin(b, w, op.call);
      DrainStays(b, s.world, s.todo, op.reactions, s.onError, s.outcome, c, what);
    }
  }

  lemma DecrementTables(w: World, e: Entry)
    ensures Decrement(w, e).tables == w.tables
  {
    hide BooksOf, KeyOf;
  }

  lemma {:induction false} DrainStays(b: Backend, w: World, todo: seq<Entry>, rs: seq<Reaction>, onError: OnError, ok: Outcome,
                                      c: nat, what: Effect)
    requires NeverIn(rs, c, what)
    ensures Stays(w, Drain(b, w, todo, rs, onError, ok).0, c, what)
    decreases rs, |todo|
  {
    hide React, Decrement, NeverBy;
    if w.halt == Running && todo != [] {
      DecrementTables(w, todo[0]);
      if rs == [] {
        DrainStays(b, Decrement(w, todo[0]), todo[1..], rs, onError, ok, c, what);
      } else {
        ReactStays(b, Decrement(w, todo[0]), rs[0], c, what);
        DrainStays(b, React(b, Decrement(w, todo[0]), rs[0]), todo[1..], rs[1..], onError, ok, c, what);
      }
    }
  }

  lemma {:induction false} ReactStays(b: Backend, w: World, r: Reaction, c: nat, what: Effect)
    requires NeverBy(r, c, what)
    ensures Stays(w, React(b, w, r), c, what)
    decreases r, 0
  {
    RunAllStays(b, w, r.ops, c, what);
  }

  lemma {:induction false} RunAllStays(b: Backend, w: World, ops: seq<Op>, c: nat, what: Effect)
    requires NeverAll(ops, c, what)
    ensures Stays(w, RunAll(b, w, ops), c, what)
    decreases ops, 0
  {
    hide Run;
    if ops != [] {
      RunStays(b, w, ops[0], c, what);
      RunAllStays(b, Run(b, w, ops[0]).0, ops[1..], c, what);
    }
  }

  /** Finalization leaves a cage without a table, unless a close handler makes it a new one. */
  lemma FinalizeLeavesNoSlots(b: Backend, w: World, c: nat, rs: seq<Reaction>)
    requires w.halt == Running && NeverIn(rs, c, Making)
    ensures c !in Run(b, w, Op(RemoveCage(c), rs)).0.tables
  {
    ReleaseKeys(b, w, c);
    hide BeginRemove;
    var s := BeginRemove(b, w, c);
    DrainStays(b, s.world, s.todo, rs, s.onError, s.outcome, c, Making);
  }

  /** The calls up to the removal in which that happens: a cage with one descriptor. */
  function OneSlot(c: nat, e: Entry): seq<Op> {
    [Op(InitCage(c), []), Op(GetSpecific(c, 0, e), [])]
  }

  /** A handler that does: one descriptor is closed, and its handler initializes the cage again. */
  lemma HandlerBringsBack(c: nat, e: Entry)
    ensures var w := RunAll(ArrayRows, EMPTY_WORLD, OneSlot(c, e));
      && w.halt == Running && c in w.tables && w.tables[c].row == map[0 := e]
      && c in Run(ArrayRows, w, Op(RemoveCage(c), [Reaction([Op(InitCage(c), [])], 0)])).0.tables
  {
    OneSlotRun(c, e);
    var w := RunAll(ArrayRows, EMPTY_WORLD, OneSlot(c, e));
    hide RunAll;
    var op := Op(InitCage(c), []);
    var s := Begin(ArrayRows, w, RemoveCage(c));
    OneEntry(e, |w.log|);
    hide EntriesOf, KeysOf;
    assert s.todo == [e] && c !in s.world.tables && s.world.halt == Running && s.world.counts == w.counts;
    hide Begin;
    CountedOnce(s.world, e);
    var w1 := Decrement(s.world, e);
    hide Decrement;
    OneOp(ArrayRows, w1, op);
    InitAgain(ArrayRows, w1, c);
    DrainOne(ArrayRows, s.world, e, Reaction([op], 0), s.onError, s.outcome);
  }

  lemma OneSlotRun(c: nat, e: Entry)
    ensures var w := RunAll(ArrayRows, EMPTY_WORLD, OneSlot(c, e));
      && w.tables == map[c := Table(map[0 := e], 0)] && w.counts == map[KeyOf(e) := 1] && w.halt == Running
  {
    var x, y := Op(InitCage(c), []), Op(GetSpecific(c, 0, e), []);
    FdBackends.TwoRuns(ArrayRows, EMPTY_WORLD, x, y);
    var s := Begin(ArrayRows, EMPTY_WORLD, InitCage(c));
    DrainEnd(ArrayRows, s.world, [], [], s.onError, s.outcome);
    var t := Begin(ArrayRows, s.world, GetSpecific(c, 0, e));
    assert t.todo == [] && t.world.halt == Running;
    DrainEnd(ArrayRows, t.world, [], [], t.onError, t.outcome);
    hide Drain, RunAll;
    assert Run(ArrayRows, EMPTY_WORLD, x).0 == s.world && Run(ArrayRows, s.world, y).0 == t.world;
    assert t.world.counts == map[KeyOf(e) := 1];
  }

  lemma CountedOnce(w: World, e: Entry)
    requires KeyOf(e) in w.counts && w.counts[KeyOf(e)] == 1 && w.halt == Running
    ensures Decrement(w, e).halt == Running && Decrement(w, e).tables == w.tables
  {
    DecrementTables(w, e);
  }

  lemma DrainOne(b: Backend, w: World, e: Entry, r: Reaction, onError: OnError, ok: Outcome)
    requires w.halt == Running && React(b, Decrement(w, e), r).halt == Running && r.errno == 0
    ensures Drain(b, w, [e], [r], onError, ok).0 == React(b, Decrement(w, e), r)
  {
    hide React, Decrement;
    assert [r][1..] == [] && [e][1..] == [];
    var w1 := React(b, Decrement(w, e), r);
    assert Drain(b, w1, [], [], onError, ok) == (w1, ok);
  }

  lemma OneOp(b: Backend, w: World, op: Op)
    ensures React(b, w, Reaction([op], 0)) == Run(b, w, op).0
  {
    hide Run;
    assert [op][1..] == [];
    assert RunAll(b, w, [op]) == RunAll(b, Run(b, w, op).0, []);
  }

  lemma InitAgain(b: Backend, w: World, c: nat)
    requires w.halt == Running && c !in w.tables
    ensures var w1 := Run(b, w, Op(InitCage(c), [])).0; c in w1.tables && w1.halt == Running
  {
  }

  lemma OneEntry(e: Entry, moment: nat)
    ensures EntriesOf(ArrayRows, map[0 := e], moment) == [e]
  {
    var row := map[0 := e];
    NoneAbove(row, 1);
    assert Ascending(row, 0) == [0] + Ascending(row, 1);
    assert [0] + [] == [0] && [0][1..] == [];
    assert EntriesAt(row, [0]) == [e] + EntriesAt(row, []);
  }
}
