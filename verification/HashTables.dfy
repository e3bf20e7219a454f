/**
 The two backends that keep a hash map per cage: the plain one and the one with a mark of
 the highest descriptor never used. They share their code apart from allocation and the
 upkeep of the mark. Every method is proved to do what the reference semantics says.
 */
module HashTables {
  import opened Options
  import opened FdTypes
  import opened FdSemantics
  import opened FdSteps

  /** The first parts of the calls that release entries or raise the mark. */
  lemma SpecificStart(b: Backend, w: World, c: nat, f: nat, e: Entry)
    requires !b.ArrayRows? && c in w.tables && f <= FD_PER_PROCESS_MAX
    ensures
      var t := w.tables[c];
      var t1 := Table(t.row[f := e], if b.HighWater? && f >= t.high then f + 1 else t.high);
      var w1 := Increment(w, e).(tables := w.tables[c := t1]);
      var onError := if b.HashMaps? then Panic else Ignore;
      BeginGetSpecific(b, w, c, f, e)
      == if f in t.row then Start(w1.(inFlight := w.inFlight + multiset{KeyOf(t.row[f])}), [t.row[f]], Done, onError)
         else Start(w1, [], Done, onError)
  {
  }

  lemma CopyStart(b: Backend, w: World, c: nat, n: nat)
    requires c in w.tables && n !in w.tables
    ensures var w1 := IncrementAll(w, EntriesOf(b, w.tables[c].row, |w.log|));
      BeginCopyTable(b, w, c, n) == Plain(w1.(tables := w.tables[n := w.tables[c]]), Done)
  {
    hide IncrementAll, EntriesOf;
  }

  lemma {:induction false} EntriesSplit(row: Row, order: seq<nat>, i: nat)
    requires i < |order|
    ensures EntriesAt(row, order[i..]) == (if order[i] in row then [row[order[i]]] else []) + EntriesAt(row, order[i + 1..])
  {
    assert order[i..][1..] == order[i + 1..];
  }

  class FdTables {
    const backend: Backend
    var fdtable: map<nat, Table>
    var fdcount: map<Key, nat>
    var nextEpoll: nat
    var epolls: map<nat, EpollInfo>
    var halt: Halt
    ghost var inFlight: multiset<Key>
    ghost var misused: bool
    ghost var log: seq<Event>
    /** The number of events so far, on which the iteration order of a map may depend. */
    var moment: nat

    ghost predicate Valid()
      reads this
    {
      !backend.ArrayRows? && moment == |log|
    }

    ghost function View(): World
      reads this
    {
      World(fdtable, fdcount, inFlight, nextEpoll, epolls, misused, log, halt)
    }

    constructor (b: Backend)
      requires !b.ArrayRows?
      ensures Valid() && backend == b && View() == EMPTY_WORLD
    {
      backend := b;
      fdtable, fdcount, nextEpoll, epolls, halt, moment := map[], map[], 0, map[], Running, 0;
      inFlight, misused, log := multiset{}, false, [];
    }

    // ---- counts and handlers ----

    method IncrementFdcount(entry: Entry)
      requires Valid()
      modifies this`fdcount, this`log, this`moment
      ensures Valid() && View() == Increment(old(View()), entry)
    {
      var k := KeyOf(entry);
      if k in fdcount {
        fdcount := fdcount[k := fdcount[k] + 1];
      } else {
        fdcount := fdcount[k := 1];
      }
      log, moment := log + [Installed(k)], moment + 1;
    }

    /** Lower the count of an entry that is being released. */
    method LowerCount(entry: Entry)
      requires Valid() && halt == Running
      modifies this`fdcount, this`inFlight, this`log, this`moment, this`halt
      ensures Valid() && View() == Decrement(old(View()), entry)
    {
      var k := KeyOf(entry);
      if k !in fdcount {
        halt := CountMissing;
      } else if fdcount[k] == 0 {
        halt := CountUnderflow;
      } else {
        var newcount := fdcount[k] - 1;
        if newcount > 0 {
          fdcount := fdcount[k := newcount];
        } else {
          fdcount := fdcount - {k};
        }
        Note(entry, newcount);
      }
    }

    /** The reference is gone, and its handler is about to be told. */
    method Note(entry: Entry, newcount: nat)
      requires Valid()
      modifies this`inFlight, this`log, this`moment
      ensures Valid()
      ensures var w := old(View()).(inFlight := old(inFlight) - multiset{KeyOf(entry)});
        View() == w.(log := w.log + [Fired(entry, newcount, newcount == 0, BooksOf(w))])
    {
      inFlight := inFlight - multiset{KeyOf(entry)};
      log, moment := log + [Fired(entry, newcount, newcount == 0, BooksOf(View()))], moment + 1;
    }

    method DecrementFdcount(entry: Entry, rs: seq<Reaction>) returns (errno: int)
      requires Valid() && halt == Running
      modifies this
      ensures Valid() && View() == Released(backend, old(View()), entry, rs) && errno == Returned(rs)
      decreases rs, 0
    {
      hide Decrement;
      errno := Returned(rs);
      LowerCount(entry);
      if rs != [] {
        if halt == Running {
          RunHandler(rs[0]);
        } else {
          HaltedStays(backend, View(), rs[0].ops);
        }
      }
    }

    method RunHandler(r: Reaction)
      requires Valid()
      modifies this
      ensures Valid() && View() == React(backend, old(View()), r)
      decreases r, 0
    {
      var i := 0;
      assert r.ops[0..] == r.ops;
      while i < |r.ops|
        invariant i <= |r.ops| && Valid()
        invariant RunAll(backend, View(), r.ops[i..]) == RunAll(backend, old(View()), r.ops)
      {
        assert r.ops[i..][1..] == r.ops[i + 1..];
        var o := Execute(r.ops[i]);
        i := i + 1;
      }
    }

    method Execute(op: Op) returns (o: Outcome)
      requires Valid()
      modifies this
      ensures Valid() && (View(), o) == Run(backend, old(View()), op)
      decreases op, 0
    {
      if halt != Running {
        return Panicked;
      }
      hide Valid, View, Noting, Drain;
      hide BeginInit, BeginTranslate, BeginGetUnused, BeginGetUnusedFrom, BeginGetSpecific, BeginSet, BeginCopyTable;
      hide BeginRemove, BeginExec, BeginClose, BeginEpollCreate, BeginEpollAddUnder, BeginEpollCtl, BeginEpollWait;
      ghost var s := Begin(backend, View(), op.call);
      assert Run(backend, View(), op) == Drain(backend, s.world, s.todo, op.reactions, s.onError, s.outcome);
      if op.call.GetSpecific? {
        hide Run;
        o := GetSpecificVirtualFd(op.call.cage, op.call.fd, op.call.entry, op.reactions);
      } else if op.call.RemoveCage? {
        hide Run;
        o := RemoveCageFromFdtable(op.call.cage, op.reactions);
      } else if op.call.EmptyForExec? {
        hide Run;
        o := EmptyFdsForExec(op.call.cage, op.reactions);
      } else if op.call.Close? {
        hide Run;
        o := CloseVirtualfd(op.call.cage, op.call.fd, op.reactions);
      } else {
        hide Run, Begin;
        PlainCall(backend, View(), op);
        o := ExecutePlain(op.call);
      }
    }

    /** A call that closes nothing, so that no handler runs. */
    method ExecutePlain(call: Call) returns (o: Outcome)
      requires Valid() && halt == Running
      requires !call.GetSpecific? && !call.RemoveCage? && !call.EmptyForExec? && !call.Close?
      modifies this
      ensures Valid()
      ensures var s := Begin(backend, old(View()), call); View() == s.world && o == s.outcome
    {
      hide Valid, View, Noting, Drain;
      hide BeginInit, BeginTranslate, BeginGetUnused, BeginGetUnusedFrom, BeginGetSpecific, BeginSet, BeginCopyTable;
      hide BeginRemove, BeginExec, BeginClose, BeginEpollCreate, BeginEpollAddUnder, BeginEpollCtl, BeginEpollWait;
      match call
      case InitCage(c) => o := InitEmptyCage(c);
      case Translate(c, f) => o := TranslateVirtualFd(c, f);
      case GetUnused(c, e) => o := GetUnusedVirtualFd(c, e);
      case GetUnusedFrom(c, e, start) => o := GetUnusedVirtualFdFromStartfd(c, e, start);
      case SetCloexec(c, f, flag) => o := UpdateSlot(c, f, Cloexec(flag));
      case SetPerfdinfo(c, f, info) => o := UpdateSlot(c, f, Perfdinfo(info));
      case CopyTable(c, n) => o := CopyFdtableForCage(c, n);
      case EpollCreate(c, cloexec) => o := EpollCreateEmpty(c, cloexec);
      case EpollAddUnder(c, f, kind, under) => o := EpollAddUnderfd(c, f, kind, under);
      case EpollCtl(c, epfd, ctl, f) => o := VirtualizeEpollCtl(c, epfd, ctl, f);
      case EpollWait(c, epfd) => o := GetVirtualEpollWaitData(c, epfd);
    }

    // ---- allocation ----

    /** The scan: the first vacant descriptor at or above `start`. */
    method FirstVacant(row: Row, start: nat) returns (r: Option<nat>)
      ensures r == LowestVacant(row, start)
    {
      var f := start;
      while f < FD_PER_PROCESS_MAX
        invariant LowestVacant(row, f) == LowestVacant(row, start)
      {
        if f !in row {
          return Some(f);
        }
        f := f + 1;
      }
      r := None;
    }

    /** The fast path takes the mark itself; only when the mark is spent are the slots scanned. */
    method Allocate(cageid: nat, entry: Entry) returns (o: Outcome)
      requires Valid() && halt == Running
      modifies this`fdtable, this`fdcount, this`log, this`moment, this`halt
      ensures Valid()
      ensures var s := BeginGetUnused(backend, old(View()), cageid, entry); View() == s.world && o == s.outcome
    {
      if cageid !in fdtable {
        halt := UnknownCage;
        return Panicked;
      }
      var t := fdtable[cageid];
      if backend.HighWater? && t.high < FD_PER_PROCESS_MAX {
        fdtable := fdtable[cageid := Table(t.row[t.high := entry], t.high + 1)];
        IncrementFdcount(entry);
        return NewFd(t.high);
      }
      var found := FirstVacant(t.row, 0);
      match found
      case None => o := Failed(EMFILE);
      case Some(f) =>
        fdtable := fdtable[cageid := Table(t.row[f := entry], t.high)];
        IncrementFdcount(entry);
        o := NewFd(f);
    }

    method GetUnusedVirtualFd(cageid: nat, entry: Entry) returns (o: Outcome)
      requires Valid() && halt == Running
      modifies this
      ensures Valid()
      ensures var s := BeginGetUnused(backend, Noting(old(View()), entry), cageid, entry); View() == s.world && o == s.outcome
    {
      misused := misused || Foreign(View(), entry);
      assert View() == Noting(old(View()), entry);
      hide Noting, LowestVacant;
      o := Allocate(cageid, entry);
    }

    method GetUnusedVirtualFdFromStartfd(cageid: nat, entry: Entry, arg: nat) returns (o: Outcome)
      requires Valid() && halt == Running
      modifies this
      ensures Valid()
      ensures var s := BeginGetUnusedFrom(backend, Noting(old(View()), entry), cageid, entry, arg); View() == s.world && o == s.outcome
    {
      misused := misused || Foreign(View(), entry);
      assert View() == Noting(old(View()), entry);
      hide Noting, Foreign, BeginGetUnusedFrom;
      o := AllocateFrom(cageid, entry, arg);
    }

    /** The scan from a given descriptor; the mark is raised past what it finds. */
    method AllocateFrom(cageid: nat, entry: Entry, arg: nat) returns (o: Outcome)
      requires Valid() && halt == Running
      modifies this`fdtable, this`fdcount, this`log, this`moment, this`halt
      ensures Valid()
      ensures var s := BeginGetUnusedFrom(backend, old(View()), cageid, entry, arg); View() == s.world && o == s.outcome
    {
      if cageid !in fdtable {
        halt := UnknownCage;
        return Panicked;
      }
      var t := fdtable[cageid];
      var found := FirstVacant(t.row, arg);
      hide LowestVacant;
      match found
      case None => o := Failed(EMFILE);
      case Some(f) =>
        var high := if backend.HighWater? && f >= t.high then f + 1 else t.high;
        fdtable := fdtable[cageid := Table(t.row[f := entry], high)];
        IncrementFdcount(entry);
        o := NewFd(f);
    }

    /** Count the new entry, then let it take the slot over; the old one stays counted for now. */
    method Exchange(cageid: nat, requested: nat, entry: Entry) returns (before: Option<Entry>)
      requires Valid() && cageid in fdtable && requested <= FD_PER_PROCESS_MAX
      modifies this`fdtable, this`fdcount, this`log, this`inFlight, this`moment
      ensures Valid()
      ensures var s := BeginGetSpecific(backend, old(View()), cageid, requested, entry);
        && View() == s.world && s.outcome == Done && s.onError == (if backend.HashMaps? then Panic else Ignore)
        && s.todo == if before.Some? then [before.value] else []
    {
      SpecificStart(backend, View(), cageid, requested, entry);
      hide BeginGetSpecific, Increment;
      var t := fdtable[cageid];
      before := if requested in t.row then Some(t.row[requested]) else None;
      IncrementFdcount(entry);
      var high := if backend.HighWater? && requested >= t.high then requested + 1 else t.high;
      fdtable := fdtable[cageid := Table(t.row[requested := entry], high)];
      if before.Some? {
        inFlight := inFlight + multiset{KeyOf(before.value)};
      }
    }

    method GetSpecificVirtualFd(cageid: nat, requested: nat, entry: Entry, rs: seq<Reaction>) returns (o: Outcome)
      requires Valid() && halt == Running
      modifies this
      ensures Valid()
      ensures var s := BeginGetSpecific(backend, Noting(old(View()), entry), cageid, requested, entry);
        (View(), o) == Drain(backend, s.world, s.todo, rs, s.onError, s.outcome)
      decreases rs, 2
    {
      hide Foreign;
      ghost var s := BeginGetSpecific(backend, Noting(View(), entry), cageid, requested, entry);
      misused := misused || Foreign(View(), entry);
      assert View() == Noting(old(View()), entry);
      hide Noting;
      if cageid !in fdtable {
        halt := UnknownCage;
        return Panicked;
      }
      if requested > FD_PER_PROCESS_MAX {
        return Failed(EBADF);
      }
      hide BeginGetSpecific;
      var before := Exchange(cageid, requested, entry);
      var onError := if backend.HashMaps? then Panic else Ignore;
      if before.Some? {
        hide Drain;
        o := CloseEntry(before.value, rs, onError);
      } else {
        DrainEnd(backend, View(), [], rs, onError, Done);
        hide Drain;
        o := Done;
      }
    }

    /** Release one entry; `onError` says what becomes of a failing handler. */
    method CloseEntry(gone: Entry, rs: seq<Reaction>, onError: OnError) returns (o: Outcome)
      requires Valid() && halt == Running
      modifies this
      ensures Valid() && (View(), o) == Drain(backend, old(View()), [gone], rs, onError, Done)
      decreases rs, 1
    {
      DrainStep(backend, View(), [gone], rs, onError, Done);
      DrainEnd(backend, Released(backend, View(), gone, rs), [gone][1..], Rest(rs), onError, Done);
      hide Drain, Released;
      var errno := DecrementFdcount(gone, rs);
      if halt != Running {
        o := Panicked;
      } else if errno == 0 || onError == Ignore {
        o := Done;
      } else if onError == Return {
        o := HandlerError(errno);
      } else {
        halt := HandlerFailed;
        o := Panicked;
      }
    }

    // ---- whole tables ----

    method CopyFdtableForCage(srccageid: nat, newcageid: nat) returns (o: Outcome)
      requires Valid() && halt == Running
      modifies this
      ensures Valid()
      ensures var s := BeginCopyTable(backend, old(View()), srccageid, newcageid); View() == s.world && o == s.outcome
    {
      if srccageid !in fdtable {
        halt := UnknownCage;
        return Panicked;
      }
      if newcageid in fdtable {
        halt := KnownCage;
        return Panicked;
      }
      CopyStart(backend, View(), srccageid, newcageid);
      hide BeginCopyTable, IncrementAll;
      var hmcopy := fdtable[srccageid];
      var values := Values(hmcopy.row);
      IncrementValues(values);
      fdtable := fdtable[newcageid := hmcopy];
      o := Done;
    }

    /** The entries of a map in the order it yields them. */
    method Values(row: Row) returns (es: seq<Entry>)
      requires Valid()
      ensures es == EntriesOf(backend, row, |log|)
    {
      var order := Enumerate(backend, row, moment);
      es := [];
      var i := 0;
      assert order[0..] == order && EntriesAt(row, []) == [];
      hide EntriesAt, Enumerate;
      while i < |order|
        invariant i <= |order|
        invariant es + EntriesAt(row, order[i..]) == EntriesAt(row, order)
      {
        EntriesSplit(row, order, i);
        if order[i] in row {
          es := es + [row[order[i]]];
        }
        i := i + 1;
      }
    }

    method IncrementValues(es: seq<Entry>)
      requires Valid()
      modifies this`fdcount, this`log, this`moment
      ensures Valid() && View() == IncrementAll(old(View()), es)
    {
      var i := 0;
      assert es[0..] == es;
      hide Increment;
      while i < |es|
        invariant i <= |es| && Valid()
        invariant IncrementAll(View(), es[i..]) == IncrementAll(old(View()), es)
      {
        assert es[i..][1..] == es[i + 1..];
        IncrementFdcount(es[i]);
        i := i + 1;
      }
    }

    method RemoveCageFromFdtable(cageid: nat, rs: seq<Reaction>) returns (o: Outcome)
      requires Valid() && halt == Running
      modifies this
      ensures Valid()
      ensures var s := BeginRemove(backend, old(View()), cageid);
        (View(), o) == Drain(backend, s.world, s.todo, rs, s.onError, s.outcome)
      decreases rs, 3
    {
      ghost var s := BeginRemove(backend, View(), cageid);
      if cageid !in fdtable {
        return Done;
      }
      var cagetable := fdtable[cageid];
      fdtable := fdtable - {cageid};
      var values := Values(cagetable.row);
      inFlight := inFlight + KeysOf(values);
      assert View() == s.world && values == s.todo;
      hide Drain;
      o := ReleaseEntries(values, rs);
    }

    method EmptyFdsForExec(cageid: nat, rs: seq<Reaction>) returns (o: Outcome)
      requires Valid() && halt == Running
      modifies this
      ensures Valid()
      ensures var s := BeginExec(backend, old(View()), cageid);
        (View(), o) == Drain(backend, s.world, s.todo, rs, s.onError, s.outcome)
      decreases rs, 3
    {
      ghost var s := BeginExec(backend, View(), cageid);
      if cageid !in fdtable {
        halt := UnknownCage;
        return Panicked;
      }
      var t := fdtable[cageid];
      var withCloexec := Marked(t.row);
      fdtable := fdtable[cageid := t.(row := t.row - withCloexec.Keys)];
      var values := Values(withCloexec);
      inFlight := inFlight + KeysOf(values);
      assert View() == s.world && values == s.todo;
      hide Drain;
      o := ReleaseEntries(values, rs);
    }

    method ReleaseEntries(todo: seq<Entry>, rs: seq<Reaction>) returns (o: Outcome)
      requires Valid() && halt == Running
      modifies this
      ensures Valid() && (View(), o) == Drain(backend, old(View()), todo, rs, Panic, Done)
      decreases rs, 2
    {
      ghost var target := Drain(backend, View(), todo, rs, Panic, Done);
      var i, j := 0, 0;
      assert rs[0..] == rs && todo[0..] == todo;
      while i < |todo|
        invariant i <= |todo| && j <= |rs| && Valid() && halt == Running
        invariant Drain(backend, View(), todo[i..], rs[j..], Panic, Done) == target
      {
        assert todo[i..][1..] == todo[i + 1..];
        assert j < |rs| ==> rs[j..][1..] == rs[j + 1..];
        DrainStep(backend, View(), todo[i..], rs[j..], Panic, Done);
        hide Drain, Released;
        var errno := DecrementFdcount(todo[i], rs[j..]);
        if halt != Running {
          return Panicked;
        }
        if errno != 0 {
          halt := HandlerFailed;
          return Panicked;
        }
        i, j := i + 1, if j < |rs| then j + 1 else j;
      }
      o := Done;
    }

    method CloseVirtualfd(cageid: nat, virtfd: nat, rs: seq<Reaction>) returns (o: Outcome)
      requires Valid() && halt == Running
      modifies this
      ensures Valid()
      ensures var s := BeginClose(old(View()), cageid, virtfd);
        (View(), o) == Drain(backend, s.world, s.todo, rs, s.onError, s.outcome)
      decreases rs, 2
    {
      ghost var s := BeginClose(View(), cageid, virtfd);
      if virtfd >= FD_PER_PROCESS_MAX {
        return Failed(EBADFD);
      }
      if cageid !in fdtable {
        halt := UnknownCage;
        return Panicked;
      }
      var t := fdtable[cageid];
      if virtfd !in t.row {
        return Failed(EBADFD);
      }
      fdtable := fdtable[cageid := t.(row := t.row - {virtfd})];
      inFlight := inFlight + multiset{KeyOf(t.row[virtfd])};
      assert View() == s.world && s.todo == [t.row[virtfd]];
      hide Drain;
      o := CloseEntry(t.row[virtfd], rs, Return);
    }

    // ---- single slots and epoll records ----

    method InitEmptyCage(cageid: nat) returns (o: Outcome)
      requires Valid() && halt == Running
      modifies this
      ensures Valid()
      ensures var s := BeginInit(old(View()), cageid); View() == s.world && o == s.outcome
    {
      if cageid in fdtable {
        halt := KnownCage;
        return Panicked;
      }
      fdtable := fdtable[cageid := Table(map[], 0)];
      o := Done;
    }

    method TranslateVirtualFd(cageid: nat, virtualfd: nat) returns (o: Outcome)
      requires Valid() && halt == Running
      modifies this
      ensures Valid()
      ensures var s := BeginTranslate(old(View()), cageid, virtualfd); View() == s.world && o == s.outcome
    {
      if cageid !in fdtable {
        halt := UnknownCage;
        return Panicked;
      }
      if virtualfd >= FD_PER_PROCESS_MAX {
        return Failed(EBADFD);
      }
      o := if virtualfd in fdtable[cageid].row then Found(fdtable[cageid].row[virtualfd]) else Failed(EBADFD);
    }

    /** Change one field of one slot. */
    method UpdateSlot(cageid: nat, virtualfd: nat, change: Change) returns (o: Outcome)
      requires Valid() && halt == Running
      modifies this
      ensures Valid()
      ensures var s := BeginSet(backend, old(View()), cageid, virtualfd, change); View() == s.world && o == s.outcome
    {
      if cageid !in fdtable {
        halt := UnknownCage;
        return Panicked;
      }
      var t := fdtable[cageid];
      if virtualfd !in t.row {
        return Failed(EBADFD);
      }
      var entry := t.row[virtualfd];
      match change {
        case Cloexec(flag) => entry := entry.(shouldCloexec := flag);
        case Perfdinfo(info) => entry := entry.(perfdinfo := info);
      }
      fdtable := fdtable[cageid := t.(row := t.row[virtualfd := entry])];
      o := Done;
    }

    method EpollCreateEmpty(cageid: nat, cloexec: bool) returns (o: Outcome)
      requires Valid() && halt == Running
      modifies this
      ensures Valid()
      ensures var s := BeginEpollCreate(backend, old(View()), cageid, cloexec); View() == s.world && o == s.outcome
    {
      hide BeginGetUnused;
      o := Allocate(cageid, Entry(FDT_KINDEPOLL, nextEpoll, cloexec, 0));
      if o.NewFd? {
        var info := if nextEpoll in epolls then epolls[nextEpoll] else EpollInfo(map[], map[]);
        epolls := epolls[nextEpoll := info];
        nextEpoll := nextEpoll + 1;
      }
    }

    /** The record behind an epoll descriptor. */
    method EpollEntrynum(cageid: nat, epfd: nat) returns (r: Result)
      requires Valid() && cageid in fdtable
      ensures r == EpollNumber(backend, View(), cageid, epfd)
    {
      var row := fdtable[cageid].row;
      if epfd !in row {
        return Err(EBADF);
      }
      r := if row[epfd].fdkind == FDT_KINDEPOLL then Number(row[epfd].underfd) else Err(EINVAL);
    }

    method EpollAddUnderfd(cageid: nat, virtepollfd: nat, fdkind: nat, underfd: nat) returns (o: Outcome)
      requires Valid() && halt == Running
      modifies this
      ensures Valid()
      ensures var s := BeginEpollAddUnder(backend, old(View()), cageid, virtepollfd, fdkind, underfd);
        View() == s.world && o == s.outcome
    {
      if cageid !in fdtable {
        halt := UnknownCage;
        return Panicked;
      }
      var num := EpollEntrynum(cageid, virtepollfd);
      if num.Err? {
        return Failed(num.errno);
      }
      if num.n !in epolls {
        halt := EpollRecordMissing;
        return Panicked;
      }
      if fdkind in epolls[num.n].under {
        halt := DuplicateUnderfd;
        return Panicked;
      }
      epolls := epolls[num.n := epolls[num.n].(under := epolls[num.n].under[fdkind := underfd])];
      o := Done;
    }

    method VirtualizeEpollCtl(cageid: nat, epfd: nat, op: EpollOp, virtfd: nat) returns (o: Outcome)
      requires Valid() && halt == Running
      modifies this
      ensures Valid()
      ensures var s := BeginEpollCtl(backend, old(View()), cageid, epfd, op, virtfd); View() == s.world && o == s.outcome
    {
      if cageid !in fdtable {
        halt := UnknownCage;
        return Panicked;
      }
      if epfd == virtfd {
        return Failed(EINVAL);
      }
      var num := EpollEntrynum(cageid, epfd);
      if num.Err? {
        return Failed(num.errno);
      }
      var row := fdtable[cageid].row;
      if virtfd !in row {
        return Failed(EBADF);
      }
      if row[virtfd].fdkind == FDT_KINDEPOLL {
        return Failed(ENOSYS);
      }
      if num.n !in epolls {
        halt := EpollRecordMissing;
        return Panicked;
      }
      hide Control;
      var handled;
      handled, o := ChangeHandled(epolls[num.n].handled, op, row[virtfd].fdkind, virtfd);
      epolls := epolls[num.n := epolls[num.n].(handled := handled)];
    }

    method GetVirtualEpollWaitData(cageid: nat, epfd: nat) returns (o: Outcome)
      requires Valid() && halt == Running
      modifies this
      ensures Valid()
      ensures var s := BeginEpollWait(backend, old(View()), cageid, epfd); View() == s.world && o == s.outcome
    {
      if cageid !in fdtable {
        halt := UnknownCage;
        return Panicked;
      }
      var num := EpollEntrynum(cageid, epfd);
      if num.Err? {
        return Failed(num.errno);
      }
      if num.n !in epolls {
        halt := EpollRecordMissing;
        return Panicked;
      }
      o := WaitData(epolls[num.n].handled);
    }
  }
}
