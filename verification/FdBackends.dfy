/**
 The array backend against the hash-map backend, whatever order its maps iterate in:
 exactly when one call behaves the same on both, and whole runs with handlers that call
 back in.
 */
module FdBackends {
  import opened FdTypes
  import opened FdSemantics
  import opened FdSteps
  import opened FdCounts

  /**
   The calls on which the array backend indexes past its row: a specific descriptor equal
   to the table size passes the range test, and the setters and epoll calls have none.
   */
  predicate Diverges(w: World, call: Call) {
    match call
    case GetSpecific(c, f, _) => c in w.tables && f == FD_PER_PROCESS_MAX
    case SetCloexec(c, f, _) => c in w.tables && f >= FD_PER_PROCESS_MAX
    case SetPerfdinfo(c, f, _) => c in w.tables && f >= FD_PER_PROCESS_MAX
    case EpollAddUnder(c, f, _, _) => c in w.tables && f >= FD_PER_PROCESS_MAX
    case EpollWait(c, f) => c in w.tables && f >= FD_PER_PROCESS_MAX
    case EpollCtl(c, ep, _, f) =>
      && c in w.tables && ep != f
      && (|| ep >= FD_PER_PROCESS_MAX
          || (f >= FD_PER_PROCESS_MAX && ep in w.tables[c].row && w.tables[c].row[ep].fdkind == FDT_KINDEPOLL))
    case _ => false
  }

  /** Equal tables for every cage, and everything else but counts and the order of events. */
  predicate SameView(w1: World, w2: World) {
    w1 == w2.(counts := w1.counts, log := w1.log, inFlight := w1.inFlight)
  }

  /** Two results a caller cannot tell apart. */
  predicate Agree(r1: (World, Outcome), r2: (World, Outcome)) {
    SameView(r1.0, r2.0) && r1.1 == r2.1
  }

  /** Balanced books leave no choice for the counts. */
  lemma CountsDetermined(b1: Backend, b2: Backend, w1: World, w2: World)
    requires Sound(b1, w1) && Sound(b2, w2) && w1.tables == w2.tables && w1.inFlight == w2.inFlight
    ensures w1.counts == w2.counts
  {
    forall k ensures k in w1.counts <==> k in w2.counts
             ensures k in w1.counts ==> w1.counts[k] == w2.counts[k] {
      assert SoundAt(w1, k) && SoundAt(w2, k);
    }
  }

  // ---- first parts ----

  /** What two first parts have in common when they differ in iteration order only. */
  ghost predicate Alike(s: Start, t: Start) {
    SameView(s.world, t.world) && |s.todo| == |t.todo| && s.outcome == t.outcome && s.onError == t.onError
  }

  lemma {:induction false} KeysSize(es: seq<Entry>)
    ensures |KeysOf(es)| == |es|
    decreases |es|
  {
    if es != [] {
      KeysSize(es[1..]);
    }
  }

  lemma SameSize(b1: Backend, b2: Backend, row: Row, m1: nat, m2: nat)
    requires Lawful(b1) && Lawful(b2) && forall f :: f in row ==> f < FD_PER_PROCESS_MAX
    ensures |EntriesOf(b1, row, m1)| == |EntriesOf(b2, row, m2)|
  {
    var e1, e2 := EntriesOf(b1, row, m1), EntriesOf(b2, row, m2);
    forall k ensures KeysOf(e1)[k] == KeysOf(e2)[k] {
      EntriesKeys(b1, row, m1, k);
      EntriesKeys(b2, row, m2, k);
    }
    assert KeysOf(e1) == KeysOf(e2);
    KeysSize(e1);
    KeysSize(e2);
  }

  lemma AlikeCopy(b1: Backend, b2: Backend, w1: World, w2: World, c: nat, n: nat)
    requires SameView(w1, w2)
    ensures Alike(BeginCopyTable(b1, w1, c, n), BeginCopyTable(b2, w2, c, n))
  {
    hide EntriesOf;
    if c in w1.tables {
      var e1, e2 := EntriesOf(b1, w1.tables[c].row, |w1.log|), EntriesOf(b2, w1.tables[c].row, |w2.log|);
      CopiedView(w1, e1);
      CopiedView(w2, e2);
    }
    hide IncrementAll;
  }

  lemma CopiedView(w: World, es: seq<Entry>)
    ensures SameView(IncrementAll(w, es), w)
  {
    IncrementAllCounted(w, es, Key(0, 0));
  }

  lemma AlikeRelease(b1: Backend, b2: Backend, w1: World, w2: World, tables: map<nat, Table>, gone: Row)
    requires Lawful(b1) && Lawful(b2) && SameView(w1, w2) && forall f :: f in gone ==> f < FD_PER_PROCESS_MAX
    ensures Alike(Release(b1, w1, tables, gone), Release(b2, w2, tables, gone))
  {
    SameSize(b1, b2, gone, |w1.log|, |w2.log|);
    hide Lawful, EntriesOf, KeysOf;
  }

  lemma AlikeRemove(b1: Backend, b2: Backend, w1: World, w2: World, c: nat)
    requires Lawful(b1) && Lawful(b2) && SameView(w1, w2) && Bounded(w1.tables)
    ensures Alike(BeginRemove(b1, w1, c), BeginRemove(b2, w2, c))
    ensures Alike(BeginExec(b1, w1, c), BeginExec(b2, w2, c))
  {
    hide Lawful, Release;
    if c in w1.tables {
      var t := w1.tables[c];
      AlikeRelease(b1, b2, w1, w2, w1.tables - {c}, t.row);
      AlikeRelease(b1, b2, w1, w2, w1.tables[c := t.(row := t.row - Marked(t.row).Keys)], Marked(t.row));
    }
  }

  lemma SameForeign(w1: World, w2: World, e: Entry)
    requires SameView(w1, w2)
    ensures SameView(Noting(w1, e), Noting(w2, e))
  {
  }

  lemma AlikeUnused(h: Backend, w1: World, w2: World, c: nat, e: Entry)
    requires SameView(w1, w2) && !h.HighWater?
    ensures Alike(BeginGetUnused(ArrayRows, w1, c, e), BeginGetUnused(h, w2, c, e))
  {
    hide LowestVacant;
  }

  lemma AlikeFrom(h: Backend, w1: World, w2: World, c: nat, e: Entry, start: nat)
    requires SameView(w1, w2) && !h.HighWater?
    ensures Alike(BeginGetUnusedFrom(ArrayRows, w1, c, e, start), BeginGetUnusedFrom(h, w2, c, e, start))
  {
    hide LowestVacant;
  }

  /** Only what becomes of a failing handler differs; there is at most one. */
  lemma AlikeSpecific(h: Backend, w1: World, w2: World, c: nat, f: nat, e: Entry)
    requires SameView(w1, w2) && !h.HighWater? && !(c in w1.tables && f == FD_PER_PROCESS_MAX)
    ensures var s, t := BeginGetSpecific(ArrayRows, w1, c, f, e), BeginGetSpecific(h, w2, c, f, e);
      && Alike(s, t.(onError := s.onError))
      && (if c in w1.tables && f < FD_PER_PROCESS_MAX && f in w1.tables[c].row
          then s.todo == [w1.tables[c].row[f]] && s.onError == Return && t.onError == (if h.HashMaps? then Panic else Return)
          else s.todo == [])
  {
  }

  lemma AlikeSimple(w1: World, w2: World, c: nat, f: nat)
    requires SameView(w1, w2)
    ensures Alike(BeginInit(w1, c), BeginInit(w2, c))
    ensures Alike(BeginTranslate(w1, c, f), BeginTranslate(w2, c, f))
    ensures Alike(BeginClose(w1, c, f), BeginClose(w2, c, f))
  {
  }

  lemma AlikeSet(h: Backend, w1: World, w2: World, c: nat, f: nat, change: Change)
    requires SameView(w1, w2) && !h.HighWater? && !(c in w1.tables && f >= FD_PER_PROCESS_MAX)
    ensures Alike(BeginSet(ArrayRows, w1, c, f, change), BeginSet(h, w2, c, f, change))
  {
    hide Apply;
  }

  lemma AlikeCreate(h: Backend, w1: World, w2: World, c: nat, cloexec: bool)
    requires SameView(w1, w2) && !h.HighWater?
    ensures Alike(BeginEpollCreate(ArrayRows, w1, c, cloexec), BeginEpollCreate(h, w2, c, cloexec))
  {
    AlikeUnused(h, w1, w2, c, Entry(FDT_KINDEPOLL, w1.nextEpoll, cloexec, 0));
    hide BeginGetUnused;
  }

  lemma SameNumber(h: Backend, w1: World, w2: World, c: nat, f: nat)
    requires SameView(w1, w2) && !h.HighWater? && c in w1.tables && f < FD_PER_PROCESS_MAX
    ensures EpollNumber(ArrayRows, w1, c, f) == EpollNumber(h, w2, c, f)
  {
  }

  lemma AlikeRecords(h: Backend, w1: World, w2: World, c: nat, f: nat, kind: nat, under: nat)
    requires SameView(w1, w2) && !h.HighWater? && !(c in w1.tables && f >= FD_PER_PROCESS_MAX)
    ensures Alike(BeginEpollAddUnder(ArrayRows, w1, c, f, kind, under), BeginEpollAddUnder(h, w2, c, f, kind, under))
    ensures Alike(BeginEpollWait(ArrayRows, w1, c, f), BeginEpollWait(h, w2, c, f))
  {
    if c in w1.tables {
      SameNumber(h, w1, w2, c, f);
    }
    hide EpollNumber;
  }

  lemma AlikeControl(h: Backend, w1: World, w2: World, c: nat, ep: nat, op: EpollOp, f: nat)
    requires SameView(w1, w2) && !h.HighWater? && !Diverges(w1, EpollCtl(c, ep, op, f))
    ensures Alike(BeginEpollCtl(ArrayRows, w1, c, ep, op, f), BeginEpollCtl(h, w2, c, ep, op, f))
  {
    if c in w1.tables && ep != f {
      SameNumber(h, w1, w2, c, ep);
    }
    hide Control;
  }

  lemma BeginAlike(h: Backend, w1: World, w2: World, call: Call)
    requires Lawful(h) && !h.HighWater?
    requires SameView(w1, w2) && Bounded(w1.tables) && !Diverges(w1, call)
    ensures call.GetSpecific? || Alike(Begin(ArrayRows, w1, call), Begin(h, w2, call))
  {
    ArrayLawful();
    hide Alike, Noting, Lawful, Bounded, SameView;
    hide BeginInit, BeginTranslate, BeginGetUnused, BeginGetUnusedFrom, BeginGetSpecific, BeginSet, BeginCopyTable;
    hide BeginRemove, BeginExec, BeginClose, BeginEpollCreate, BeginEpollAddUnder, BeginEpollCtl, BeginEpollWait;
    match call
    case InitCage(c) => AlikeSimple(w1, w2, c, 0);
    case Translate(c, f) => AlikeSimple(w1, w2, c, f);
    case Close(c, f) => AlikeSimple(w1, w2, c, f);
    case GetUnused(c, e) =>
      SameForeign(w1, w2, e);
      AlikeUnused(h, Noting(w1, e), Noting(w2, e), c, e);
    case GetUnusedFrom(c, e, start) =>
      SameForeign(w1, w2, e);
      AlikeFrom(h, Noting(w1, e), Noting(w2, e), c, e, start);
    case GetSpecific(c, f, e) =>
    case SetCloexec(c, f, flag) => AlikeSet(h, w1, w2, c, f, Cloexec(flag));
    case SetPerfdinfo(c, f, info) => AlikeSet(h, w1, w2, c, f, Perfdinfo(info));
    case CopyTable(c, n) => AlikeCopy(ArrayRows, h, w1, w2, c, n);
    case RemoveCage(c) => AlikeRemove(ArrayRows, h, w1, w2, c);
    case EmptyForExec(c) => AlikeRemove(ArrayRows, h, w1, w2, c);
    case EpollCreate(c, cloexec) => AlikeCreate(h, w1, w2, c, cloexec);
    case EpollAddUnder(c, f, kind, under) => AlikeRecords(h, w1, w2, c, f, kind, under);
    case EpollWait(c, f) => AlikeRecords(h, w1, w2, c, f, 0, 0);
    case EpollCtl(c, ep, op, f) => AlikeControl(h, w1, w2, c, ep, op, f);
  }

  lemma ArrayLawful()
    ensures Lawful(ArrayRows)
  {
  }

  /** `GetSpecific` as a whole call begins it. */
  lemma SpecificAlike(h: Backend, w1: World, w2: World, call: Call)
    requires SameView(w1, w2) && !h.HighWater? && call.GetSpecific? && !Diverges(w1, call)
    ensures var s, t := Begin(ArrayRows, w1, call), Begin(h, w2, call);
      && Alike(s, t.(onError := s.onError))
      && (if Occupied(w1, call) then s.todo == [w1.tables[call.cage].row[call.fd]] && s.onError == Return
                                     && t.onError == (if h.HashMaps? then Panic else Return)
          else s.todo == [])
  {
    SameForeign(w1, w2, call.entry);
    AlikeSpecific(h, Noting(w1, call.entry), Noting(w2, call.entry), call.cage, call.fd, call.entry);
    hide BeginGetSpecific, Foreign;
  }

  /** A specific descriptor is asked for whose slot is taken. */
  predicate Occupied(w: World, call: Call)
    requires call.GetSpecific?
  {
    call.cage in w.tables && call.fd < FD_PER_PROCESS_MAX && call.fd in w.tables[call.cage].row
  }

  // ---- whole runs ----

  /** The descriptors a call names lie within the table. */
  predicate InRange(call: Call) {
    match call
    case GetSpecific(_, f, _) => f != FD_PER_PROCESS_MAX
    case SetCloexec(_, f, _) => f < FD_PER_PROCESS_MAX
    case SetPerfdinfo(_, f, _) => f < FD_PER_PROCESS_MAX
    case EpollAddUnder(_, f, _, _) => f < FD_PER_PROCESS_MAX
    case EpollWait(_, f) => f < FD_PER_PROCESS_MAX
    case EpollCtl(_, ep, _, f) => ep < FD_PER_PROCESS_MAX && f < FD_PER_PROCESS_MAX
    case _ => true
  }

  /**
   Every call, including those handlers make, is in range, and no handler called for a
   replaced descriptor fails. Other handlers may fail.
   */
  predicate Tame(op: Op) {
    && InRange(op.call) && (op.call.GetSpecific? ==> Returned(op.reactions) == 0)
    && forall r :: r in op.reactions ==> TameReaction(r)
  }

  predicate TameReaction(r: Reaction) {
    forall op :: op in r.ops ==> Tame(op)
  }

  /** A release changes counts and events only, whatever the entry. */
  lemma DecrementView(b: Backend, w: World, e: Entry)
    requires Sound(b, w) && w.halt == Running && w.inFlight[KeyOf(e)] > 0
    ensures SameView(Decrement(w, e), w)
  {
    DecrementSound(b, w, e);
  }

  /** One release and its handler, on both backends; the entries may differ. */
  lemma {:induction false} ReleasedAgree(h: Backend, w1: World, w2: World, e1: Entry, e2: Entry, rs: seq<Reaction>)
    requires !h.HighWater? && Lawful(h) && Sound(ArrayRows, w1) && Sound(h, w2) && SameView(w1, w2) && w1.halt == Running
    requires w1.inFlight[KeyOf(e1)] > 0 && w2.inFlight[KeyOf(e2)] > 0
    requires forall r :: r in rs ==> TameReaction(r)
    ensures var x, y := Released(ArrayRows, w1, e1, rs), Released(h, w2, e2, rs);
      && SameView(x, y) && Sound(ArrayRows, x) && Sound(h, y)
      && (x.halt == Running ==> x.inFlight == w1.inFlight - multiset{KeyOf(e1)})
      && (y.halt == Running ==> y.inFlight == w2.inFlight - multiset{KeyOf(e2)})
    decreases rs, 0, 0
  {
    DecrementSound(ArrayRows, w1, e1);
    DecrementSound(h, w2, e2);
    DecrementView(ArrayRows, w1, e1);
    DecrementView(h, w2, e2);
    hide Sound, Decrement, React, Lawful;
    if rs != [] {
      assert TameReaction(rs[0]);
      ArrayLawful();
      ReactSound(ArrayRows, Decrement(w1, e1), rs[0]);
      ReactSound(h, Decrement(w2, e2), rs[0]);
      ReactAgrees(h, Decrement(w1, e1), Decrement(w2, e2), rs[0]);
    }
  }

  lemma {:induction false} DrainAgrees(h: Backend, w1: World, w2: World, todo1: seq<Entry>, todo2: seq<Entry>,
                                       rs: seq<Reaction>, on1: OnError, on2: OnError, ok: Outcome)
    requires !h.HighWater? && Lawful(h) && Sound(ArrayRows, w1) && Sound(h, w2) && SameView(w1, w2)
    requires w1.halt == Running ==> KeysOf(todo1) <= w1.inFlight && KeysOf(todo2) <= w2.inFlight
    requires |todo1| == |todo2| && (on1 == on2 || todo1 == [] || (|todo1| == 1 && Returned(rs) == 0))
    requires forall r :: r in rs ==> TameReaction(r)
    ensures Agree(Drain(ArrayRows, w1, todo1, rs, on1, ok), Drain(h, w2, todo2, rs, on2, ok))
    decreases rs, |todo1|, 1
  {
    hide Sound, Drain, KeysOf, Lawful, Released;
    if w1.halt != Running || todo1 == [] {
      DrainEnd(ArrayRows, w1, todo1, rs, on1, ok);
      DrainEnd(h, w2, todo2, rs, on2, ok);
    } else {
      FirstKey(w1.inFlight, todo1);
      FirstKey(w2.inFlight, todo2);
      ReleasedAgree(h, w1, w2, todo1[0], todo2[0], rs);
      DrainStep(ArrayRows, w1, todo1, rs, on1, ok);
      DrainStep(h, w2, todo2, rs, on2, ok);
      var x, y := Released(ArrayRows, w1, todo1[0], rs), Released(h, w2, todo2[0], rs);
      assert x.halt == y.halt;
      assert forall r :: r in Rest(rs) ==> r in rs;
      hide TameReaction;
      if x.halt == Running && (on1 != on2 || Returned(rs) == 0 || on1 == Ignore) {
        DrainAgrees(h, x, y, todo1[1..], todo2[1..], Rest(rs), on1, on2, ok);
      }
    }
  }

  /** The first entry to release is in flight, and the others after it. */
  lemma FirstKey(inFlight: multiset<Key>, todo: seq<Entry>)
    requires todo != [] && KeysOf(todo) <= inFlight
    ensures inFlight[KeyOf(todo[0])] > 0 && KeysOf(todo[1..]) <= inFlight - multiset{KeyOf(todo[0])}
  {
    assert todo == [todo[0]] + todo[1..];
    KeysCons(todo[0], todo[1..]);
    hide KeysOf;
    Peel(inFlight, multiset{KeyOf(todo[0])}, KeysOf(todo[1..]));
  }

  lemma {:induction false} ReactAgrees(h: Backend, w1: World, w2: World, r: Reaction)
    requires !h.HighWater? && Lawful(h) && Sound(ArrayRows, w1) && Sound(h, w2) && SameView(w1, w2) && TameReaction(r)
    ensures SameView(React(ArrayRows, w1, r), React(h, w2, r))
    decreases r, 0, 0
  {
    RunAllAgrees(h, w1, w2, r.ops);
  }

  /** The results of a sequence of calls. */
  function Outcomes(b: Backend, w: World, ops: seq<Op>): seq<Outcome>
    decreases |ops|
  {
    if ops == [] then [] else [Run(b, w, ops[0]).1] + Outcomes(b, Run(b, w, ops[0]).0, ops[1..])
  }

  lemma {:induction false} RunAllAgrees(h: Backend, w1: World, w2: World, ops: seq<Op>)
    requires !h.HighWater? && Lawful(h) && Sound(ArrayRows, w1) && Sound(h, w2) && SameView(w1, w2)
    requires forall op :: op in ops ==> Tame(op)
    ensures SameView(RunAll(ArrayRows, w1, ops), RunAll(h, w2, ops))
    ensures Outcomes(ArrayRows, w1, ops) == Outcomes(h, w2, ops)
    decreases ops, 0, 0
  {
    if ops != [] {
      assert Tame(ops[0]);
      ArrayLawful();
      RunSound(ArrayRows, w1, ops[0]);
      RunSound(h, w2, ops[0]);
      hide Sound, Run, Lawful;
      RunAgrees(h, w1, w2, ops[0]);
      RunAllAgrees(h, Run(ArrayRows, w1, ops[0]).0, Run(h, w2, ops[0]).0, ops[1..]);
    }
  }

  /** A whole call, with handlers that call back in. */
  lemma {:induction false} RunAgrees(h: Backend, w1: World, w2: World, op: Op)
    requires !h.HighWater? && Lawful(h) && Sound(ArrayRows, w1) && Sound(h, w2) && SameView(w1, w2) && Tame(op)
    ensures Agree(Run(ArrayRows, w1, op), Run(h, w2, op))
    decreases op, 0, 0
  {
    if w1.halt == Running {
      assert !Diverges(w1, op.call);
      BothGood(h, w1, w2, op.call);
      if op.call.GetSpecific? {
        SpecificAlike(h, w1, w2, op.call);
      } else {
        BeginAlike(h, w1, w2, op.call);
      }
      hide Begin, Sound, Lawful, InRange, Drain, KeysOf;
      var s, t := Begin(ArrayRows, w1, op.call), Begin(h, w2, op.call);
      DrainAgrees(h, s.world, t.world, s.todo, t.todo, op.reactions, s.onError, t.onError, s.outcome);
    }
  }

  /** Both first parts leave sound worlds with what is to be released in flight. */
  lemma BothGood(h: Backend, w1: World, w2: World, call: Call)
    requires !h.HighWater? && Lawful(h) && Sound(ArrayRows, w1) && Sound(h, w2) && w1.halt == w2.halt == Running
    ensures var s, t := Begin(ArrayRows, w1, call), Begin(h, w2, call);
      && Sound(ArrayRows, s.world) && Sound(h, t.world)
      && (s.world.halt == Running ==> KeysOf(s.todo) <= s.world.inFlight)
      && (t.world.halt == Running ==> KeysOf(t.todo) <= t.world.inFlight)
  {
    ArrayLawful();
    BeginGood(ArrayRows, w1, call);
    BeginGood(h, w2, call);
    hide Begin, Sound, Lawful, KeysOf;
  }

  /**
   The array backend refines the hash-map backend, whatever order its maps iterate in and
   with handlers that call back in: over any calls in range both return the same results and
   leave the same table for every cage, and, unless they end in a panic, the same counts.
   */
  lemma ArrayRefinesHashMaps(h: Backend, ops: seq<Op>)
    requires h.HashMaps? && Lawful(h) && forall op :: op in ops ==> Tame(op)
    ensures var x, y := RunAll(ArrayRows, EMPTY_WORLD, ops), RunAll(h, EMPTY_WORLD, ops);
      && Outcomes(ArrayRows, EMPTY_WORLD, ops) == Outcomes(h, EMPTY_WORLD, ops)
      && SameView(x, y) && x.tables == y.tables
      && (x.halt == Running ==> x.counts == y.counts && x.inFlight == y.inFlight == multiset{})
  {
    ArrayLawful();
    EmptySound(ArrayRows);
    EmptySound(h);
    RunAllAgrees(h, EMPTY_WORLD, EMPTY_WORLD, ops);
    RunAllSound(ArrayRows, EMPTY_WORLD, ops);
    RunAllSound(h, EMPTY_WORLD, ops);
    hide Sound, RunAll, Lawful;
    var x, y := RunAll(ArrayRows, EMPTY_WORLD, ops), RunAll(h, EMPTY_WORLD, ops);
    if x.halt == Running {
      CountsDetermined(ArrayRows, h, x, y);
    }
  }

  // ---- exactly when one call agrees ----

  /** On a call that diverges the array panics and the hash map goes on; neither calls a handler. */
  lemma DivergesApart(h: Backend, w1: World, w2: World, call: Call)
    requires h.HashMaps? && SameView(w1, w2) && Bounded(w1.tables) && w1.halt == Running && Diverges(w1, call)
    ensures var s, t := Begin(ArrayRows, w1, call), Begin(h, w2, call);
      s.world.halt == OutOfBounds && t.world.halt == Running && t.todo == []
  {
    hide Foreign, Control, Apply;
  }

  /** The handler called for a replaced descriptor returns an error, having caused no panic itself. */
  predicate HandlerRefuses(w: World, op: Op) {
    && op.call.GetSpecific? && Occupied(w, op.call) && Returned(op.reactions) != 0
    && var s := Begin(ArrayRows, w, op.call);
    Released(ArrayRows, s.world, w.tables[op.call.cage].row[op.call.fd], op.reactions).halt == Running
  }

  lemma RefusalDecides(h: Backend, w1: World, w2: World, op: Op)
    requires h.HashMaps? && Lawful(h) && Sound(ArrayRows, w1) && Sound(h, w2) && SameView(w1, w2) && w1.halt == Running
    requires op.call.GetSpecific? && !Diverges(w1, op.call) && Occupied(w1, op.call) && Returned(op.reactions) != 0
    requires forall r :: r in op.reactions ==> TameReaction(r)
    ensures Agree(Run(ArrayRows, w1, op), Run(h, w2, op)) <==> !HandlerRefuses(w1, op)
  {
    BothGood(h, w1, w2, op.call);
    SpecificAlike(h, w1, w2, op.call);
    hide Begin, Sound, Lawful, Drain, KeysOf, Released;
    var s, t := Begin(ArrayRows, w1, op.call), Begin(h, w2, op.call);
    if s.world.halt == Running {
      FirstKey(s.world.inFlight, s.todo);
      FirstKey(t.world.inFlight, t.todo);
      ReleasedAgree(h, s.world, t.world, s.todo[0], t.todo[0], op.reactions);
      DrainStep(ArrayRows, s.world, s.todo, op.reactions, s.onError, s.outcome);
      DrainStep(h, t.world, t.todo, op.reactions, t.onError, t.outcome);
    }
  }

  /**
   One call, with handlers whose own calls are in range: the two backends agree if and only if
   the call does not make the array index past its row, and does not replace a descriptor whose
   handler refuses. The array returns that handler's error, the hash map panics.
   */
  lemma ArrayAgreesExactly(h: Backend, w1: World, w2: World, op: Op)
    requires h.HashMaps? && Lawful(h) && Sound(ArrayRows, w1) && Sound(h, w2) && SameView(w1, w2) && w1.halt == Running
    requires forall r :: r in op.reactions ==> TameReaction(r)
    ensures Agree(Run(ArrayRows, w1, op), Run(h, w2, op)) <==> !Diverges(w1, op.call) && !HandlerRefuses(w1, op)
  {
    if Diverges(w1, op.call) {
      DivergesApart(h, w1, w2, op.call);
      hide Begin, Sound, Lawful, HandlerRefuses;
      var s, t := Begin(ArrayRows, w1, op.call), Begin(h, w2, op.call);
      DrainEnd(ArrayRows, s.world, s.todo, op.reactions, s.onError, s.outcome);
      DrainEnd(h, t.world, t.todo, op.reactions, t.onError, t.outcome);
    } else if op.call.GetSpecific? && Occupied(w1, op.call) && Returned(op.reactions) != 0 {
      RefusalDecides(h, w1, w2, op);
    } else {
      BothGood(h, w1, w2, op.call);
      if op.call.GetSpecific? {
        SpecificAlike(h, w1, w2, op.call);
      } else {
        BeginAlike(h, w1, w2, op.call);
      }
      hide Begin, Sound, Lawful, Drain, KeysOf, Diverges;
      var s, t := Begin(ArrayRows, w1, op.call), Begin(h, w2, op.call);
      if op.call.GetSpecific? && !Occupied(w1, op.call) {
        DrainEnd(ArrayRows, s.world, s.todo, op.reactions, s.onError, s.outcome);
        DrainEnd(h, t.world, t.todo, op.reactions, t.onError, t.outcome);
      } else {
        DrainAgrees(h, s.world, t.world, s.todo, t.todo, op.reactions, s.onError, t.onError, s.outcome);
      }
    }
  }

  // ---- where the backends part ----

  /** Asking for descriptor 1024 itself: the array panics, and leaves a reference counted. */
  lemma DivergenceAtTheLimit(iter: (Row, nat) -> seq<nat>, e: Entry)
    requires e.fdkind < FDT_KINDMAX
    ensures
      var ops := [Op(InitCage(1), []), Op(GetSpecific(1, FD_PER_PROCESS_MAX, e), [])];
      var a, h := RunAll(ArrayRows, EMPTY_WORLD, ops), RunAll(HashMaps(iter), EMPTY_WORLD, ops);
      && a.halt == OutOfBounds && a.tables == map[1 := Table(map[], 0)] && a.counts == map[KeyOf(e) := 1]
      && h.halt == Running && h.tables == map[1 := Table(map[FD_PER_PROCESS_MAX := e], 0)] && h.counts == a.counts
  {
    var init, get := Op(InitCage(1), []), Op(GetSpecific(1, FD_PER_PROCESS_MAX, e), []);
    var w := EMPTY_WORLD.(tables := map[1 := Table(map[], 0)]);
    LimitCall(ArrayRows, init, get, w, e);
    LimitCall(HashMaps(iter), init, get, w, e);
    var ops := [init, get];
    assert ops[1..] == [get] && [get][1..] == [];
    hide Run;
    assert RunAll(ArrayRows, EMPTY_WORLD, ops) == RunAll(ArrayRows, w, [get]) == Run(ArrayRows, w, get).0;
    assert RunAll(HashMaps(iter), EMPTY_WORLD, ops) == RunAll(HashMaps(iter), w, [get]) == Run(HashMaps(iter), w, get).0;
  }

  lemma LimitCall(b: Backend, init: Op, get: Op, w: World, e: Entry)
    requires !b.HighWater? && e.fdkind < FDT_KINDMAX
    requires init == Op(InitCage(1), []) && get == Op(GetSpecific(1, FD_PER_PROCESS_MAX, e), [])
    requires w == EMPTY_WORLD.(tables := map[1 := Table(map[], 0)])
    ensures Run(b, EMPTY_WORLD, init).0 == w
    ensures var w1 := Run(b, w, get).0; var t1 := Table(map[FD_PER_PROCESS_MAX := e], 0);
      && w1.counts == map[KeyOf(e) := 1]
      && w1.halt == (if b.ArrayRows? then OutOfBounds else Running)
      && w1.tables == if b.ArrayRows? then w.tables else map[1 := t1]
  {
    var s := Begin(b, w, get.call);
    assert s.todo == [];
    DrainEnd(b, s.world, [], [], s.onError, s.outcome);
    var s0 := Begin(b, EMPTY_WORLD, init.call);
    DrainEnd(b, s0.world, [], [], s0.onError, s0.outcome);
  }

  /** Cage 1 with some slots filled, and nothing else. */
  function Filled(w: World, row: Row): World {
    w.(tables := map[1 := Table(row, 0)])
  }

  lemma InitRun(b: Backend)
    ensures Run(b, EMPTY_WORLD, Op(InitCage(1), [])) == (Filled(EMPTY_WORLD, map[]), Done)
  {
    var s := Begin(b, EMPTY_WORLD, InitCage(1));
    DrainEnd(b, s.world, [], [], s.onError, s.outcome);
  }

  /** A specific descriptor in a vacant slot: counted and stored. */
  lemma PutRun(b: Backend, w: World, row: Row, f: nat, e: Entry)
    requires !b.HighWater? && w == Filled(w, row) && w.halt == Running
    requires f < FD_PER_PROCESS_MAX && f !in row && e.fdkind < FDT_KINDMAX
    ensures Run(b, w, Op(GetSpecific(1, f, e), [])) == (Filled(Increment(w, e), row[f := e]), Done)
  {
    assert !Foreign(w, e) && Noting(w, e) == w;
    hide Foreign, Noting;
    var s := Begin(b, w, GetSpecific(1, f, e));
    assert s.todo == [] && s.outcome == Done;
    assert s.world == Filled(Increment(w, e), row[f := e]);
    hide Begin, Increment;
    DrainEnd(b, s.world, [], [], s.onError, s.outcome);
  }

  lemma ThreeRuns(b: Backend, w: World, x: Op, y: Op, z: Op)
    ensures var (w1, o1) := Run(b, w, x); var (w2, o2) := Run(b, w1, y); var (w3, o3) := Run(b, w2, z);
      RunAll(b, w, [x, y, z]) == w3 && Outcomes(b, w, [x, y, z]) == [o1, o2, o3]
  {
    hide Run;
    assert [x, y, z][1..] == [y, z];
    TwoRuns(b, Run(b, w, x).0, y, z);
    assert Outcomes(b, w, [x, y, z]) == [Run(b, w, x).1] + Outcomes(b, Run(b, w, x).0, [y, z]);
  }

  lemma TwoRuns(b: Backend, w: World, y: Op, z: Op)
    ensures var (w1, o1) := Run(b, w, y); var (w2, o2) := Run(b, w1, z);
      RunAll(b, w, [y, z]) == w2 && Outcomes(b, w, [y, z]) == [o1, o2]
  {
    hide Run;
    var w1 := Run(b, w, y).0;
    assert [y, z][1..] == [z] && [z][1..] == [];
    assert RunAll(b, w1, [z]) == RunAll(b, Run(b, w1, z).0, []);
    assert Outcomes(b, w1, [z]) == [Run(b, w1, z).1] + [];
    assert Outcomes(b, w, [y, z]) == [Run(b, w, y).1] + Outcomes(b, w1, [z]);
  }

  /** Replacing a descriptor whose handler fails: the array returns the error, the hash map panics. */
  lemma RefusalAtAnInput(iter: (Row, nat) -> seq<nat>, e: Entry)
    requires e.fdkind < FDT_KINDMAX
    ensures var ops := [Op(InitCage(1), []), Op(GetSpecific(1, 0, e), []), Op(GetSpecific(1, 0, e), [Reaction([], 5)])];
      && Outcomes(ArrayRows, EMPTY_WORLD, ops) == [Done, Done, HandlerError(5)]
      && Outcomes(HashMaps(iter), EMPTY_WORLD, ops) == [Done, Done, Panicked]
  {
    RefusedCall(ArrayRows, e);
    RefusedCall(HashMaps(iter), e);
  }

  lemma RefusedCall(b: Backend, e: Entry)
    requires !b.HighWater? && e.fdkind < FDT_KINDMAX
    ensures var ops := [Op(InitCage(1), []), Op(GetSpecific(1, 0, e), []), Op(GetSpecific(1, 0, e), [Reaction([], 5)])];
      Outcomes(b, EMPTY_WORLD, ops) == [Done, Done, if b.ArrayRows? then HandlerError(5) else Panicked]
  {
    var init, put, again := Op(InitCage(1), []), Op(GetSpecific(1, 0, e), []), Op(GetSpecific(1, 0, e), [Reaction([], 5)]);
    InitRun(b);
    PutRun(b, Filled(EMPTY_WORLD, map[]), map[], 0, e);
    var w := Filled(Increment(Filled(EMPTY_WORLD, map[]), e), map[0 := e]);
    ThreeRuns(b, EMPTY_WORLD, init, put, again);
    RefusedAgain(b, w, again, e);
    hide Run, Outcomes;
  }

  lemma RefusedAgain(b: Backend, w: World, again: Op, e: Entry)
    requires !b.HighWater? && e.fdkind < FDT_KINDMAX
    requires w == Filled(w, map[0 := e]) && w.counts == map[KeyOf(e) := 1] && w.halt == Running
    requires again == Op(GetSpecific(1, 0, e), [Reaction([], 5)])
    ensures Run(b, w, again).1 == if b.ArrayRows? then HandlerError(5) else Panicked
  {
    var s := Begin(b, w, again.call);
    assert s.todo == [e] && s.world.halt == Running && s.world.counts == map[KeyOf(e) := 2];
    assert s.onError == if b.ArrayRows? then Return else Panic;
    hide Begin;
    var w1 := Decrement(s.world, e);
    assert w1.halt == Running;
    hide Decrement;
    assert React(b, w1, Reaction([], 5)) == w1;
    DrainStep(b, s.world, [e], again.reactions, s.onError, s.outcome);
  }
}
