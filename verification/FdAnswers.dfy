/**
 What the calls answer, and what a later call sees of them: every statement is about the
 entries that lookups find and the records behind epoll descriptors.
 */
module FdAnswers {
  import opened Options
  import opened FdTypes
  import opened FdSemantics
  import opened FdSteps
  import opened FdCounts
  import opened FdTheorems
  import opened FdEpoll

  // ---- looking ----

  /** What is in a slot. */
  function Look(w: World, c: nat, f: nat): Option<Entry> {
    if c in w.tables && f in w.tables[c].row then Some(w.tables[c].row[f]) else None
  }

  /** Exactly one slot has changed, and no table has come or gone. */
  ghost predicate OneSlot(w: World, w1: World, c: nat, f: nat, e: Option<Entry>) {
    && w1.tables.Keys == w.tables.Keys
    && forall d: nat, g: nat :: Look(w1, d, g) == if d == c && g == f then e else Look(w, d, g)
  }

  ghost predicate SameSlots(w: World, w1: World) {
    w1.tables.Keys == w.tables.Keys && forall d: nat, g: nat :: Look(w1, d, g) == Look(w, d, g)
  }

  lemma SlotPut(w: World, w1: World, c: nat, f: nat, e: Entry, high: nat)
    requires c in w.tables && w1.tables == w.tables[c := Table(w.tables[c].row[f := e], high)]
    ensures OneSlot(w, w1, c, f, Some(e))
  {
  }

  /** The handlers a call triggers make no calls themselves; what they return is left open. */
  predicate Quiet(rs: seq<Reaction>) {
    forall r :: r in rs ==> r.ops == []
  }

  lemma {:induction false} DrainQuiet(b: Backend, w: World, todo: seq<Entry>, rs: seq<Reaction>, onError: OnError, ok: Outcome)
    requires Quiet(rs)
    ensures var w1 := Drain(b, w, todo, rs, onError, ok).0; w1.tables == w.tables && w1.epolls == w.epolls && w1.nextEpoll == w.nextEpoll
    decreases |todo|
  {
    hide *;
    if w.halt != Running || todo == [] {
      DrainEnd(b, w, todo, rs, onError, ok);
    } else {
      DrainStep(b, w, todo, rs, onError, ok);
      ReleasedQuiet(b, w, todo[0], rs);
      QuietRest(rs);
      DrainQuiet(b, Released(b, w, todo[0], rs), todo[1..], Rest(rs), onError, ok);
    }
  }

  lemma QuietRest(rs: seq<Reaction>)
    requires Quiet(rs)
    ensures Quiet(Rest(rs))
  {
  }

  lemma ReleasedQuiet(b: Backend, w: World, e: Entry, rs: seq<Reaction>)
    requires Quiet(rs)
    ensures var w1 := Released(b, w, e, rs); w1.tables == w.tables && w1.epolls == w.epolls && w1.nextEpoll == w.nextEpoll
  {
    hide KeyOf, BooksOf;
    var w1 := Decrement(w, e);
    assert w1 == w.(counts := w1.counts, inFlight := w1.inFlight, log := w1.log, halt := w1.halt);
    hide Decrement;
    if rs != [] {
      assert rs[0] in rs;
      assert RunAll(b, w1, []) == w1;
    }
  }

  /** A call with such handlers leaves the tables and records as its first part does. */
  lemma RunQuiet(b: Backend, w: World, op: Op)
    requires w.halt == Running && Quiet(op.reactions)
    ensures var w1, s := Run(b, w, op).0, Begin(b, w, op.call);
      w1.tables == s.world.tables && w1.epolls == s.world.epolls && w1.nextEpoll == s.world.nextEpoll
  {
    hide Begin, Quiet;
    var s := Begin(b, w, op.call);
    DrainQuiet(b, s.world, s.todo, op.reactions, s.onError, s.outcome);
    hide Drain;
  }

  /** A lookup answers with what is in the slot; there is none at or above the table size. */
  lemma TranslateAnswers(b: Backend, w: World, c: nat, f: nat, rs: seq<Reaction>)
    requires w.halt == Running
    ensures var (w1, o) := Run(b, w, Op(Translate(c, f), rs));
      if c !in w.tables then o == Panicked && w1 == w.(halt := UnknownCage)
      else w1 == w && o == if f < FD_PER_PROCESS_MAX && Look(w, c, f).Some? then Found(Look(w, c, f).value) else Failed(EBADFD)
  {
    PlainCall(b, w, Op(Translate(c, f), rs));
    hide Run;
  }

  /** What a lookup says, of a running state or after a panic. */
  ghost function Seen(b: Backend, w: World, c: nat, f: nat): Outcome {
    Run(b, w, Op(Translate(c, f), [])).1
  }

  lemma SeenIs(b: Backend, w: World, c: nat, f: nat)
    requires w.halt == Running && c in w.tables && f < FD_PER_PROCESS_MAX
    ensures Seen(b, w, c, f) == if Look(w, c, f).Some? then Found(Look(w, c, f).value) else Failed(EBADFD)
  {
    TranslateAnswers(b, w, c, f, []);
    hide Run;
  }

  // ---- new descriptors ----

  /** Every slot from `start` on is taken. */
  predicate FullFrom(row: Row, start: nat) {
    forall f :: start <= f < FD_PER_PROCESS_MAX ==> f in row
  }

  /**
   A descriptor at or above `start`, on every backend: EMFILE exactly when all slots from there
   on are taken, and then nothing changes; otherwise the lowest vacant one is filled with the
   entry, no other slot is touched, and a lookup of it finds the entry.
   */
  lemma AllocationFromIsExact(b: Backend, w: World, c: nat, e: Entry, start: nat, rs: seq<Reaction>)
    requires w.halt == Running && c in w.tables
    ensures var (w1, o) := Run(b, w, Op(GetUnusedFrom(c, e, start), rs)); var row := w.tables[c].row;
      && (o == Failed(EMFILE) <==> FullFrom(row, start))
      && (FullFrom(row, start) ==> BooksOf(w1) == BooksOf(w))
      && (!FullFrom(row, start) ==>
            && o.NewFd? && start <= o.fd < FD_PER_PROCESS_MAX && Look(w, c, o.fd).None?
            && (forall f :: start <= f < o.fd ==> f in row)
            && OneSlot(w, w1, c, o.fd, Some(e)) && Seen(b, w1, c, o.fd) == Found(e))
  {
    var op := Op(GetUnusedFrom(c, e, start), rs);
    PlainCall(b, w, op);
    FromFills(b, Noting(w, e), c, e, start);
    hide Run, BeginGetUnusedFrom, Foreign;
    var (w1, o) := Run(b, w, op);
    if o.NewFd? {
      SeenIs(b, w1, c, o.fd);
    }
  }

  lemma FromFills(b: Backend, w: World, c: nat, e: Entry, start: nat)
    requires w.halt == Running && c in w.tables
    ensures var s := BeginGetUnusedFrom(b, w, c, e, start); var row := w.tables[c].row;
      && s.world.halt == Running
      && (if FullFrom(row, start) then s.outcome == Failed(EMFILE) && s.world == w
          else
            && s.outcome.NewFd? && start <= s.outcome.fd < FD_PER_PROCESS_MAX && s.outcome.fd !in row
            && (forall f :: start <= f < s.outcome.fd ==> f in row)
            && c in s.world.tables && s.world.tables == w.tables[c := Table(row[s.outcome.fd := e], s.world.tables[c].high)])
  {
    var r := LowestVacant(w.tables[c].row, start);
    assert r.None? <==> FullFrom(w.tables[c].row, start);
    hide LowestVacant, KeyOf;
  }

  /** The same for a descriptor anywhere; the backends that scan give the lowest one. */
  lemma AllocationAnswers(b: Backend, w: World, c: nat, e: Entry, rs: seq<Reaction>)
    requires Sound(b, w) && w.halt == Running && c in w.tables
    ensures var (w1, o) := Run(b, w, Op(GetUnused(c, e), rs)); var row := w.tables[c].row;
      && (o == Failed(EMFILE) <==> Full(row))
      && (Full(row) ==> BooksOf(w1) == BooksOf(w))
      && (!Full(row) ==>
            && o.NewFd? && o.fd < FD_PER_PROCESS_MAX && Look(w, c, o.fd).None?
            && (!b.HighWater? ==> forall f :: 0 <= f < o.fd ==> f in row)
            && OneSlot(w, w1, c, o.fd, Some(e)) && Seen(b, w1, c, o.fd) == Found(e))
  {
    var op := Op(GetUnused(c, e), rs);
    PlainCall(b, w, op);
    UnusedFills(b, Noting(w, e), c, e);
    hide Run, BeginGetUnused, Foreign, Sound;
    var (w1, o) := Run(b, w, op);
    if o.NewFd? {
      SeenIs(b, w1, c, o.fd);
    }
  }

  lemma UnusedFills(b: Backend, w: World, c: nat, e: Entry)
    requires w.halt == Running && c in w.tables && (b.HighWater? ==> BelowMark(w.tables))
    ensures var s := BeginGetUnused(b, w, c, e); var row := w.tables[c].row;
      && s.world.halt == Running
      && (if Full(row) then s.outcome == Failed(EMFILE) && s.world == w
          else
            && s.outcome.NewFd? && s.outcome.fd < FD_PER_PROCESS_MAX && s.outcome.fd !in row
            && (!b.HighWater? ==> forall f :: 0 <= f < s.outcome.fd ==> f in row)
            && c in s.world.tables && s.world.tables == w.tables[c := Table(row[s.outcome.fd := e], s.world.tables[c].high)])
  {
    var r, t := LowestVacant(w.tables[c].row, 0), w.tables[c];
    assert r.None? <==> Full(t.row);
    assert b.HighWater? && t.high < FD_PER_PROCESS_MAX ==> t.high !in t.row;
    hide LowestVacant, KeyOf;
  }

  /** A specific descriptor below the table size: the slot holds the entry afterwards, whatever it held. */
  lemma SpecificAnswers(b: Backend, w: World, c: nat, f: nat, e: Entry, rs: seq<Reaction>)
    requires w.halt == Running && c in w.tables && Quiet(rs)
    ensures var (w1, o) := Run(b, w, Op(GetSpecific(c, f, e), rs));
      && (f < FD_PER_PROCESS_MAX ==> OneSlot(w, w1, c, f, Some(e)))
      && (f < FD_PER_PROCESS_MAX && w1.halt == Running ==> Seen(b, w1, c, f) == Found(e))
      && (f > FD_PER_PROCESS_MAX ==> o == Failed(EBADF) && SameSlots(w, w1))
  {
    hide *;
    var op := Op(GetSpecific(c, f, e), rs);
    var w1 := Run(b, w, op).0;
    RunQuiet(b, w, op);
    SpecificPut(b, w, c, f, e, rs);
    if f < FD_PER_PROCESS_MAX {
      SlotPut(w, w1, c, f, e, w1.tables[c].high);
      if w1.halt == Running {
        Kept(w, w1, c, f, Some(e));
        SeenIs(b, w1, c, f);
      }
    } else if f > FD_PER_PROCESS_MAX {
      Unchanged(w, w1);
    }
  }

  lemma Kept(w: World, w1: World, c: nat, f: nat, e: Option<Entry>)
    requires OneSlot(w, w1, c, f, e) && c in w.tables
    ensures c in w1.tables && Look(w1, c, f) == e
  {
  }

  lemma Unchanged(w: World, w1: World)
    requires w1.tables == w.tables
    ensures SameSlots(w, w1)
  {
  }

  lemma SpecificPut(b: Backend, w: World, c: nat, f: nat, e: Entry, rs: seq<Reaction>)
    requires w.halt == Running && c in w.tables
    ensures var s := Begin(b, w, GetSpecific(c, f, e)); var row := w.tables[c].row;
      && (f < FD_PER_PROCESS_MAX ==> c in s.world.tables && s.world.tables == w.tables[c := Table(row[f := e], s.world.tables[c].high)])
      && (f > FD_PER_PROCESS_MAX ==> s.world.tables == w.tables && Run(b, w, Op(GetSpecific(c, f, e), rs)).1 == Failed(EBADF))
  {
    hide KeyOf, Increment, Foreign;
    var s := Begin(b, w, GetSpecific(c, f, e));
    if f > FD_PER_PROCESS_MAX {
      DrainEnd(b, s.world, s.todo, rs, s.onError, s.outcome);
    }
    hide Drain;
  }

  // ---- setters ----

  /** Entries that differ in nothing but the field a setter is for. */
  predicate OnlyCloexec(e: Entry, e1: Entry) {
    e1.fdkind == e.fdkind && e1.underfd == e.underfd && e1.perfdinfo == e.perfdinfo
  }

  predicate OnlyPerfdinfo(e: Entry, e1: Entry) {
    e1.fdkind == e.fdkind && e1.underfd == e.underfd && e1.shouldCloexec == e.shouldCloexec
  }

  /** The setters change their field of one entry, and answer EBADFD for a vacant slot. */
  lemma SettersAnswer(b: Backend, w: World, c: nat, f: nat, flag: bool, info: nat, rs: seq<Reaction>)
    requires w.halt == Running && c in w.tables && f < FD_PER_PROCESS_MAX
    ensures var (w1, o) := Run(b, w, Op(SetCloexec(c, f, flag), rs)); var e := Look(w, c, f);
      if e.None? then o == Failed(EBADFD) && w1 == w
      else
        && o == Done && Look(w1, c, f).Some? && OneSlot(w, w1, c, f, Look(w1, c, f))
        && Look(w1, c, f).value.shouldCloexec == flag && OnlyCloexec(e.value, Look(w1, c, f).value)
        && Seen(b, w1, c, f) == Found(Look(w1, c, f).value)
    ensures var (w1, o) := Run(b, w, Op(SetPerfdinfo(c, f, info), rs)); var e := Look(w, c, f);
      if e.None? then o == Failed(EBADFD) && w1 == w
      else
        && o == Done && Look(w1, c, f).Some? && OneSlot(w, w1, c, f, Look(w1, c, f))
        && Look(w1, c, f).value.perfdinfo == info && OnlyPerfdinfo(e.value, Look(w1, c, f).value)
        && Seen(b, w1, c, f) == Found(Look(w1, c, f).value)
  {
    var p, q := Op(SetCloexec(c, f, flag), rs), Op(SetPerfdinfo(c, f, info), rs);
    PlainCall(b, w, p);
    PlainCall(b, w, q);
    hide Run;
    if Look(w, c, f).Some? {
      SeenIs(b, Run(b, w, p).0, c, f);
      SeenIs(b, Run(b, w, q).0, c, f);
    }
  }

  // ---- tables ----

  /** A new cage has an empty table; a known one is a panic. */
  lemma InitAnswers(b: Backend, w: World, c: nat, rs: seq<Reaction>)
    requires w.halt == Running
    ensures var (w1, o) := Run(b, w, Op(InitCage(c), rs));
      if c in w.tables then o == Panicked && w1 == w.(halt := KnownCage)
      else
        && o == Done && w1.tables.Keys == w.tables.Keys + {c}
        && forall d: nat, g: nat :: Look(w1, d, g) == Look(w, d, g)
  {
    PlainCall(b, w, Op(InitCage(c), rs));
    hide Run;
  }

  /** A copy has the entries of the original, and nothing else changes. */
  lemma CopyAnswers(b: Backend, w: World, c: nat, n: nat, rs: seq<Reaction>)
    requires w.halt == Running && c in w.tables && n !in w.tables
    ensures var (w1, o) := Run(b, w, Op(CopyTable(c, n), rs));
      && o == Done && w1.tables.Keys == w.tables.Keys + {n}
      && forall d: nat, g: nat :: Look(w1, d, g) == if d == n then Look(w, c, g) else Look(w, d, g)
  {
    PlainCall(b, w, Op(CopyTable(c, n), rs));
    hide Run, EntriesOf, IncrementAll;
  }

  /** Removing a cage takes all its entries away, and no others; an unknown one is no error. */
  lemma RemoveAnswers(b: Backend, w: World, c: nat, rs: seq<Reaction>)
    requires w.halt == Running && Quiet(rs)
    ensures var w1 := Run(b, w, Op(RemoveCage(c), rs)).0;
      && w1.tables.Keys == w.tables.Keys - {c}
      && forall d: nat, g: nat :: Look(w1, d, g) == if d == c then None else Look(w, d, g)
  {
    hide *;
    RunQuiet(b, w, Op(RemoveCage(c), rs));
    RemoveStart(b, w, c);
    LooksWithout(w, Run(b, w, Op(RemoveCage(c), rs)).0, c);
  }

  lemma RemoveStart(b: Backend, w: World, c: nat)
    ensures Begin(b, w, RemoveCage(c)).world.tables == w.tables - {c}
  {
    hide EntriesOf, KeysOf;
  }

  lemma LooksWithout(w: World, w1: World, c: nat)
    requires w1.tables == w.tables - {c}
    ensures w1.tables.Keys == w.tables.Keys - {c}
    ensures forall d: nat, g: nat :: Look(w1, d, g) == if d == c then None else Look(w, d, g)
  {
  }

  /** Exec takes away exactly the cage's entries marked close-on-exec. */
  lemma ExecAnswers(b: Backend, w: World, c: nat, rs: seq<Reaction>)
    requires w.halt == Running && c in w.tables && Quiet(rs)
    ensures var w1 := Run(b, w, Op(EmptyForExec(c), rs)).0;
      && w1.tables.Keys == w.tables.Keys
      && forall d: nat, g: nat :: Look(w1, d, g)
           == if d == c && Look(w, d, g).Some? && Look(w, d, g).value.shouldCloexec then None else Look(w, d, g)
  {
    RunQuiet(b, w, Op(EmptyForExec(c), rs));
    hide Run, EntriesOf, KeysOf, Quiet;
  }

  /** Closing empties the slot, so that a lookup fails; a vacant slot is EBADFD. */
  lemma CloseAnswers(b: Backend, w: World, c: nat, f: nat, rs: seq<Reaction>)
    requires w.halt == Running && c in w.tables && Quiet(rs)
    ensures var (w1, o) := Run(b, w, Op(Close(c, f), rs));
      if f >= FD_PER_PROCESS_MAX || Look(w, c, f).None? then o == Failed(EBADFD) && w1 == w
      else OneSlot(w, w1, c, f, None) && (w1.halt == Running ==> Seen(b, w1, c, f) == Failed(EBADFD))
  {
    var op := Op(Close(c, f), rs);
    RunQuiet(b, w, op);
    var s := BeginClose(w, c, f);
    if f >= FD_PER_PROCESS_MAX || Look(w, c, f).None? {
      DrainEnd(b, s.world, s.todo, rs, s.onError, s.outcome);
    } else {
      assert s.world.tables == w.tables[c := Table(w.tables[c].row - {f}, w.tables[c].high)];
      hide Drain, Quiet, KeyOf;
      var w1 := Run(b, w, op).0;
      if w1.halt == Running {
        SeenIs(b, w1, c, f);
      }
    }
  }

  /** Closing calls exactly one handler, for the entry that was in the slot. */
  lemma CloseFires(b: Backend, w: World, c: nat, f: nat, rs: seq<Reaction>)
    requires Sound(b, w) && w.halt == Running && f < FD_PER_PROCESS_MAX && Look(w, c, f).Some? && Quiet(rs)
    ensures var w1 := Run(b, w, Op(Close(c, f), rs)).0;
      |w1.log| == |w.log| + 1 && w.log <= w1.log && w1.log[|w.log|].Fired? && w1.log[|w.log|].entry == Look(w, c, f).value
  {
    var e := w.tables[c].row[f];
    var s := BeginClose(w, c, f);
    assert s.todo == [e] && s.world.halt == Running && s.world.log == w.log && s.onError == Return;
    assert Begin(b, w, Close(c, f)) == s;
    CloseGood(b, w, c, f);
    KeysOfOne(e);
    hide BeginClose, Begin;
    OneFires(b, s.world, e, rs, s.outcome);
    hide Drain, Quiet, Sound;
  }

  lemma OneFires(b: Backend, w: World, e: Entry, rs: seq<Reaction>, ok: Outcome)
    requires Sound(b, w) && w.halt == Running && w.inFlight[KeyOf(e)] > 0 && Quiet(rs)
    ensures var w1 := Drain(b, w, [e], rs, Return, ok).0;
      |w1.log| == |w.log| + 1 && w.log <= w1.log && w1.log[|w.log|].Fired? && w1.log[|w.log|].entry == e
  {
    DecrementSound(b, w, e);
    var w1 := Decrement(w, e);
    assert w1.log == w.log + [w1.log[|w.log|]] && w1.log[|w.log|].Fired? && w1.log[|w.log|].entry == e;
    hide Sound, Decrement, Drain;
    DrainStep(b, w, [e], rs, Return, ok);
    if rs != [] {
      assert rs[0] in rs;
      assert RunAll(b, w1, []) == w1;
    }
    assert Released(b, w, e, rs) == w1 && [e][1..] == [];
    DrainEnd(b, w1, [], Rest(rs), Return, ok);
  }

  // ---- handlers that fail ----

  /** A handler that makes no calls and returns an error. */
  predicate Fails(r: Reaction) {
    r.ops == [] && r.errno != 0
  }

  lemma OneError(b: Backend, w: World, todo: seq<Entry>, rs: seq<Reaction>, onError: OnError, ok: Outcome)
    requires Sound(b, w) && w.halt == Running && todo != [] && KeysOf(todo) <= w.inFlight && rs != [] && Fails(rs[0])
    ensures var (w1, o) := Drain(b, w, todo, rs, onError, ok);
      match onError
      case Return => o == HandlerError(rs[0].errno) && w1.halt == Running
      case Panic => o == Panicked && w1.halt == HandlerFailed
      case Ignore => |todo| == 1 ==> o == ok && w1.halt == Running
  {
    var e := todo[0];
    FirstHeld(w.inFlight, todo);
    DecrementSound(b, w, e);
    var w1 := Decrement(w, e);
    hide Sound, Decrement, Drain, KeysOf;
    assert RunAll(b, w1, []) == w1;
    assert Released(b, w, e, rs) == w1;
    DrainStep(b, w, todo, rs, onError, ok);
    if onError == Ignore && |todo| == 1 {
      DrainEnd(b, w1, todo[1..], Rest(rs), onError, ok);
    }
  }

  lemma FirstHeld(inFlight: multiset<Key>, todo: seq<Entry>)
    requires todo != [] && KeysOf(todo) <= inFlight
    ensures inFlight[KeyOf(todo[0])] > 0
  {
  }

  /**
   What becomes of a handler's error: closing returns it; replacing a descriptor returns it on
   the array, panics on the hash maps, and is not told on the high-water backend.
   */
  lemma ErrorAnswers(b: Backend, w: World, c: nat, f: nat, e: Entry, rs: seq<Reaction>)
    requires Sound(b, w) && w.halt == Running && f < FD_PER_PROCESS_MAX && Look(w, c, f).Some? && rs != [] && Fails(rs[0])
    ensures Run(b, w, Op(Close(c, f), rs)).1 == HandlerError(rs[0].errno)
    ensures Run(b, w, Op(GetSpecific(c, f, e), rs)).1
         == match b case ArrayRows => HandlerError(rs[0].errno) case HashMaps(_) => Panicked case HighWater(_) => Done
  {
    var was, call := w.tables[c].row[f], GetSpecific(c, f, e);
    CloseGood(b, w, c, f);
    BeginGoodSpecific(b, w, c, f, e);
    var s, t := Begin(b, w, Close(c, f)), Begin(b, w, call);
    assert s.todo == [was] && s.onError == Return && s.world.halt == Running;
    SpecificReleases(b, w, c, f, e);
    hide Begin, Sound;
    KeysOfOne(was);
    hide KeysOf;
    OneError(b, s.world, s.todo, rs, s.onError, s.outcome);
    OneError(b, t.world, t.todo, rs, t.onError, t.outcome);
    hide Drain;
  }

  lemma SpecificReleases(b: Backend, w: World, c: nat, f: nat, e: Entry)
    requires w.halt == Running && f < FD_PER_PROCESS_MAX && Look(w, c, f).Some?
    ensures var t := Begin(b, w, GetSpecific(c, f, e));
      && t.todo == [Look(w, c, f).value] && t.outcome == Done && t.world.halt == Running
      && t.onError == match b case ArrayRows => Return case HashMaps(_) => Panic case HighWater(_) => Ignore
  {
    hide KeyOf, Foreign;
  }

  lemma BeginGoodSpecific(b: Backend, w: World, c: nat, f: nat, e: Entry)
    requires Sound(b, w) && w.halt == Running && f < FD_PER_PROCESS_MAX && Look(w, c, f).Some?
    ensures var t := Begin(b, w, GetSpecific(c, f, e));
      Sound(b, t.world) && (t.world.halt == Running ==> t.world.inFlight == w.inFlight + KeysOf(t.todo))
  {
    NotingSound(b, w, e);
    GetSpecificGood(b, Noting(w, e), c, f, e);
    hide BeginGetSpecific, Sound, Foreign;
  }

  lemma NotingSound(b: Backend, w: World, e: Entry)
    requires Sound(b, w)
    ensures Sound(b, Noting(w, e))
  {
    hide Foreign;
    SameBooks(b, w, Noting(w, e));
  }

  /** Removing a cage that has a descriptor, or the marked ones of a cage, panics if the first handler fails. */
  lemma ReleaseErrors(b: Backend, w: World, c: nat, f: nat, rs: seq<Reaction>)
    requires Lawful(b) && Sound(b, w) && w.halt == Running && Bounded(w.tables) && Look(w, c, f).Some? && rs != [] && Fails(rs[0])
    ensures Run(b, w, Op(RemoveCage(c), rs)).1 == Panicked
    ensures Look(w, c, f).value.shouldCloexec ==> Run(b, w, Op(EmptyForExec(c), rs)).1 == Panicked
  {
    assert c in w.tables && f in w.tables[c].row;
    var row := w.tables[c].row;
    assert forall g :: g in row ==> g < FD_PER_PROCESS_MAX;
    assert row[f].shouldCloexec ==> f in Marked(row) && forall g :: g in Marked(row) ==> g in row;
    assert Look(w, c, f).value == row[f];
    hide *;
    ReleaseTodo(b, w, c);
    SomeListed(b, row, |w.log|, f);
    ReleasePanics(b, w, RemoveCage(c), rs);
    if row[f].shouldCloexec {
      SomeListed(b, Marked(row), |w.log|, f);
      ReleasePanics(b, w, EmptyForExec(c), rs);
    }
  }

  lemma ReleaseTodo(b: Backend, w: World, c: nat)
    requires w.halt == Running && c in w.tables
    ensures var s, t := Begin(b, w, RemoveCage(c)), Begin(b, w, EmptyForExec(c)); var row := w.tables[c].row;
      && s.todo == EntriesOf(b, row, |w.log|) && s.onError == Panic && s.world.halt == Running
      && t.todo == EntriesOf(b, Marked(row), |w.log|) && t.onError == Panic && t.world.halt == Running
  {
    hide EntriesOf, KeysOf, Marked;
  }

  lemma ReleasePanics(b: Backend, w: World, call: Call, rs: seq<Reaction>)
    requires Lawful(b) && Sound(b, w) && w.halt == Running && rs != [] && Fails(rs[0])
    requires var s := Begin(b, w, call); s.todo != [] && s.onError == Panic && s.world.halt == Running
    ensures Run(b, w, Op(call, rs)).1 == Panicked
  {
    hide Begin, Sound, Lawful, KeysOf, Fails;
    var s := Begin(b, w, call);
    BeginGood(b, w, call);
    OneError(b, s.world, s.todo, rs, s.onError, s.outcome);
    hide Drain;
  }

  lemma SomeListed(b: Backend, row: Row, m: nat, f: nat)
    requires Lawful(b) && f in row && forall g :: g in row ==> g < FD_PER_PROCESS_MAX
    ensures EntriesOf(b, row, m) != []
  {
    EntriesKeys(b, row, m, KeyOf(row[f]));
    assert f in FdsWith(row, KeyOf(row[f]));
    hide EntriesOf, Lawful;
  }

  // ---- cages that are not there ----

  /** Every call on an unknown cage panics, but for making and removing one, and closing far out of range. */
  lemma UnknownAnswers(b: Backend, w: World, op: Op)
    requires w.halt == Running && op.call.cage !in w.tables && !op.call.InitCage? && !op.call.RemoveCage?
    requires op.call.Close? ==> op.call.fd < FD_PER_PROCESS_MAX
    ensures var (w1, o) := Run(b, w, op); o == Panicked && w1 == w.(halt := UnknownCage, misused := w1.misused)
  {
    hide Foreign;
    var s := Begin(b, w, op.call);
    DrainEnd(b, s.world, s.todo, op.reactions, s.onError, s.outcome);
    hide Drain;
  }

  /** The exceptions: nothing happens. Copying to a known cage is a panic as well. */
  lemma KnownAnswers(b: Backend, w: World, c: nat, f: nat, n: nat, rs: seq<Reaction>)
    requires w.halt == Running
    ensures c !in w.tables ==> Run(b, w, Op(RemoveCage(c), rs)) == (w, Done)
    ensures f >= FD_PER_PROCESS_MAX ==> Run(b, w, Op(Close(c, f), rs)) == (w, Failed(EBADFD))
    ensures c in w.tables && n in w.tables ==> Run(b, w, Op(CopyTable(c, n), rs)) == (w.(halt := KnownCage), Panicked)
  {
    var s, t := BeginRemove(b, w, c), BeginClose(w, c, f);
    if c !in w.tables {
      DrainEnd(b, s.world, s.todo, rs, s.onError, s.outcome);
    }
    if f >= FD_PER_PROCESS_MAX {
      DrainEnd(b, t.world, t.todo, rs, t.onError, t.outcome);
    }
    PlainCall(b, w, Op(CopyTable(c, n), rs));
    hide Drain, EntriesOf, KeysOf;
  }

  // ---- epoll descriptors ----

  predicate IsEpoll(row: Row, f: nat) {
    f in row && row[f].fdkind == FDT_KINDEPOLL
  }

  /** The rows of the array backend end at the table size, and the call asks beyond. */
  predicate Past(b: Backend, f: nat) {
    b.ArrayRows? && f >= FD_PER_PROCESS_MAX
  }

  /** The record behind an epoll descriptor that has one. */
  ghost predicate Behind(w: World, c: nat, epfd: nat, n: nat) {
    c in w.tables && IsEpoll(w.tables[c].row, epfd) && n == w.tables[c].row[epfd].underfd && n in w.epolls
  }

  /** Nothing but one record has changed. */
  predicate OneRecord(w: World, w1: World, n: nat, info: EpollInfo) {
    w1 == w.(epolls := w.epolls[n := info])
  }

  /**
   A control call on the record behind `epfd`, at the kind of `fd` and `fd`: ADD inserts if
   absent, MOD replaces if present, DEL removes if present; nothing else of the world changes,
   and waiting afterwards answers with the record as it is then.
   */
  lemma ControlAnswers(b: Backend, w: World, c: nat, epfd: nat, op: EpollOp, fd: nat, n: nat, rs: seq<Reaction>)
    requires EpollOk(w) && w.halt == Running && Behind(w, c, epfd, n) && (b.ArrayRows? ==> Bounded(w.tables))
    requires fd in w.tables[c].row && !IsEpoll(w.tables[c].row, fd)
    ensures var (w1, o) := Run(b, w, Op(EpollCtl(c, epfd, op, fd), rs));
      var k, info := w.tables[c].row[fd].fdkind, w.epolls[n];
      && n in w1.epolls && OneRecord(w, w1, n, EpollInfo(info.under, w1.epolls[n].handled))
      && Run(b, w1, Op(EpollWait(c, epfd), rs)) == (w1, WaitData(w1.epolls[n].handled))
      && var h, h1 := info.handled, w1.epolls[n].handled;
      match op
      case Add(ev) => if At(h, k, fd).Some? then o == Failed(EEXIST) && w1 == w else o == Done && Updated(h, h1, k, fd, Some(ev))
      case Mod(ev) => if At(h, k, fd).Some? then o == Done && Updated(h, h1, k, fd, Some(ev)) else o == Failed(ENOENT) && w1 == w
      case Del => if At(h, k, fd).Some? then o == Done && Updated(h, h1, k, fd, None) else o == Failed(ENOENT) && w1 == w
      case Unsupported => o == Failed(EINVAL) && w1 == w
  {
    assert c in w.tables && n in w.epolls;
    hide *;
    var call := EpollCtl(c, epfd, op, fd);
    var k, h := w.tables[c].row[fd].fdkind, w.epolls[n].handled;
    PlainCall(b, w, Op(call, rs));
    ControlStart(b, w, c, epfd, op, fd, n);
    HandledFull(w, n);
    ControlIsPartialMap(h, op, k, fd);
    var (h1, o) := Control(h, op, k, fd);
    var w1 := w.(epolls := w.epolls[n := EpollInfo(w.epolls[n].under, h1)]);
    BehindStill(w, w1, c, epfd, n);
    WaitAnswers(b, w1, c, epfd, n, rs);
    OneRecordIs(w, w1, n, h1);
  }

  lemma ControlStart(b: Backend, w: World, c: nat, epfd: nat, op: EpollOp, fd: nat, n: nat)
    requires w.halt == Running && Behind(w, c, epfd, n) && (b.ArrayRows? ==> Bounded(w.tables))
    requires fd in w.tables[c].row && !IsEpoll(w.tables[c].row, fd)
    ensures var s := Begin(b, w, EpollCtl(c, epfd, op, fd));
      var (h1, o) := Control(w.epolls[n].handled, op, w.tables[c].row[fd].fdkind, fd);
      s.world == w.(epolls := w.epolls[n := EpollInfo(w.epolls[n].under, h1)]) && s.outcome == o
  {
    hide Control;
  }

  lemma HandledFull(w: World, n: nat)
    requires EpollOk(w) && n in w.epolls
    ensures NoEmptyInner(w.epolls[n].handled)
  {
  }

  lemma BehindStill(w: World, w1: World, c: nat, epfd: nat, n: nat)
    requires Behind(w, c, epfd, n) && w1.tables == w.tables && n in w1.epolls
    ensures Behind(w1, c, epfd, n)
  {
  }

  lemma OneRecordIs(w: World, w1: World, n: nat, h: Handled)
    requires n in w.epolls && w1 == w.(epolls := w.epolls[n := EpollInfo(w.epolls[n].under, h)])
    ensures OneRecord(w, w1, n, EpollInfo(w.epolls[n].under, h)) && (h == w.epolls[n].handled ==> w1 == w)
  {
    assert w.epolls[n := w.epolls[n]] == w.epolls;
  }

  /** Waiting answers with the record behind the descriptor and changes nothing. */
  lemma WaitAnswers(b: Backend, w: World, c: nat, epfd: nat, n: nat, rs: seq<Reaction>)
    requires w.halt == Running && Behind(w, c, epfd, n) && (b.ArrayRows? ==> Bounded(w.tables))
    ensures Run(b, w, Op(EpollWait(c, epfd), rs)) == (w, WaitData(w.epolls[n].handled))
  {
    PlainCall(b, w, Op(EpollWait(c, epfd), rs));
    hide Run;
  }

  /** Exactly when a control call is refused, and with what; then nothing changes. */
  lemma ControlRefuses(b: Backend, w: World, c: nat, epfd: nat, op: EpollOp, fd: nat, rs: seq<Reaction>)
    requires EpollOk(w) && !w.misused && w.halt == Running && c in w.tables && (b.ArrayRows? ==> Bounded(w.tables))
    ensures var (w1, o) := Run(b, w, Op(EpollCtl(c, epfd, op, fd), rs)); var row := w.tables[c].row;
      var acts := IsEpoll(row, epfd) && fd in row && !IsEpoll(row, fd);
      && (o == Failed(EINVAL) <==> epfd == fd || (epfd in row && !IsEpoll(row, epfd)) || (acts && op.Unsupported?))
      && (o == Failed(EBADF) <==>
            epfd != fd && !Past(b, epfd) && (epfd !in row || (IsEpoll(row, epfd) && !Past(b, fd) && fd !in row)))
      && (o == Failed(ENOSYS) <==> epfd != fd && IsEpoll(row, epfd) && IsEpoll(row, fd))
      && (o == Panicked <==> epfd != fd && (Past(b, epfd) || (IsEpoll(row, epfd) && Past(b, fd))))
      && (o.Failed? ==> w1 == w)
  {
    var call := EpollCtl(c, epfd, op, fd);
    PlainCall(b, w, Op(call, rs));
    var row := w.tables[c].row;
    if IsEpoll(row, epfd) && fd in row && !IsEpoll(row, fd) {
      ControlIsPartialMap(w.epolls[row[epfd].underfd].handled, op, row[fd].fdkind, fd);
    }
    var s := Begin(b, w, call);
    if s.outcome.Failed? {
      FailedControlChangesNothing(b, w, c, epfd, op, fd);
    }
    hide Run, NoEmptyInner, Updated;
  }

  /** A descriptor underneath is registered for its kind in the record behind the epoll descriptor, once. */
  lemma AddUnderAnswers(b: Backend, w: World, c: nat, epfd: nat, kind: nat, under: nat, rs: seq<Reaction>)
    requires w.halt == Running && c in w.tables && (b.ArrayRows? ==> Bounded(w.tables))
    ensures var (w1, o) := Run(b, w, Op(EpollAddUnder(c, epfd, kind, under), rs)); var row := w.tables[c].row;
      && (epfd in row && !IsEpoll(row, epfd) ==> o == Failed(EINVAL) && w1 == w)
      && (epfd !in row && !Past(b, epfd) ==> o == Failed(EBADF) && w1 == w)
      && forall n :: Behind(w, c, epfd, n) ==>
           var info := w.epolls[n];
           if kind in info.under then o == Panicked && w1 == w.(halt := DuplicateUnderfd)
           else o == Done && OneRecord(w, w1, n, EpollInfo(info.under[kind := under], info.handled))
  {
    PlainCall(b, w, Op(EpollAddUnder(c, epfd, kind, under), rs));
    hide Run;
  }

  /** A new epoll descriptor has a record of its own, with nothing in it. */
  lemma CreateAnswers(b: Backend, w: World, c: nat, cloexec: bool, rs: seq<Reaction>)
    requires EpollOk(w) && Sound(b, w) && w.halt == Running && c in w.tables
    ensures var (w1, o) := Run(b, w, Op(EpollCreate(c, cloexec), rs)); var row := w.tables[c].row;
      && (o == Failed(EMFILE) <==> Full(row))
      && (!Full(row) ==>
            && o.NewFd? && Look(w, c, o.fd).None?
            && OneSlot(w, w1, c, o.fd, Some(Entry(FDT_KINDEPOLL, w.nextEpoll, cloexec, 0)))
            && w.nextEpoll !in w.epolls && w1.epolls == w.epolls[w.nextEpoll := EpollInfo(map[], map[])]
            && Behind(w1, c, o.fd, w.nextEpoll)
            && Run(b, w1, Op(EpollWait(c, o.fd), rs)) == (w1, WaitData(map[])))
  {
    hide *;
    var e := Entry(FDT_KINDEPOLL, w.nextEpoll, cloexec, 0);
    var op := Op(EpollCreate(c, cloexec), rs);
    var (w1, o) := Run(b, w, op);
    PlainCall(b, w, op);
    CreateFrame(b, w, c, cloexec, e);
    if o.NewFd? {
      SlotPut(w, w1, c, o.fd, e, w1.tables[c].high);
      BoundedPut(b, w, w1, c, o.fd, e, w1.tables[c].high);
      CreateBehind(w, w1, c, o.fd, e);
      WaitAnswers(b, w1, c, o.fd, w.nextEpoll, rs);
    }
  }

  lemma CreateFrame(b: Backend, w: World, c: nat, cloexec: bool, e: Entry)
    requires EpollOk(w) && Sound(b, w) && w.halt == Running && c in w.tables && e == Entry(FDT_KINDEPOLL, w.nextEpoll, cloexec, 0)
    ensures var s := Begin(b, w, EpollCreate(c, cloexec)); var row := w.tables[c].row;
      if Full(row) then s.outcome == Failed(EMFILE)
      else
        && s.outcome.NewFd? && s.outcome.fd < FD_PER_PROCESS_MAX && Look(w, c, s.outcome.fd).None? && s.world.halt == Running
        && c in s.world.tables && s.world.tables == w.tables[c := Table(row[s.outcome.fd := e], s.world.tables[c].high)]
        && w.nextEpoll !in w.epolls && s.world.epolls == w.epolls[w.nextEpoll := EpollInfo(map[], map[])]
  {
    UnusedFills(b, w, c, e);
    hide BeginGetUnused;
  }

  lemma CreateBehind(w: World, w1: World, c: nat, f: nat, e: Entry)
    requires c in w.tables && c in w1.tables && w1.tables == w.tables[c := Table(w.tables[c].row[f := e], w1.tables[c].high)]
    requires e.fdkind == FDT_KINDEPOLL && e.underfd == w.nextEpoll && w1.epolls == w.epolls[w.nextEpoll := EpollInfo(map[], map[])]
    ensures Behind(w1, c, f, w.nextEpoll) && w1.epolls[w.nextEpoll].handled == map[]
  {
  }

  lemma BoundedPut(b: Backend, w: World, w1: World, c: nat, f: nat, e: Entry, high: nat)
    requires Sound(b, w) && c in w.tables && f < FD_PER_PROCESS_MAX && w1.tables == w.tables[c := Table(w.tables[c].row[f := e], high)]
    ensures b.ArrayRows? ==> Bounded(w1.tables)
  {
  }
}
