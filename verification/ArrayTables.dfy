/**
 The default backend: each cage's table is a fixed row of 1024 slots, scanned by loops.
 Every method is proved to do what the reference semantics says, handlers included.
 */
module ArrayTables {
  import opened Options
  import opened FdTypes
  import opened FdSemantics
  import opened FdSteps

  /** A row of slots; a map of such rows is what the backend stores. */
  type Slots = seq<Option<Entry>>

  function RowOf(s: Slots): Row {
    map f: nat | f < |s| && s[f].Some? :: s[f].value
  }

  function TablesOf(t: map<nat, Slots>): map<nat, Table> {
    map c | c in t :: Table(RowOf(t[c]), 0)
  }

  lemma TablesPut(t: map<nat, Slots>, c: nat, s: Slots)
    ensures TablesOf(t[c := s]) == TablesOf(t)[c := Table(RowOf(s), 0)]
  {
  }

  lemma NoTable(t: map<nat, Slots>, c: nat)
    requires c !in t
    ensures c !in TablesOf(t)
  {
  }

  lemma TableAt(t: map<nat, Slots>, c: nat)
    requires c in t
    ensures c in TablesOf(t) && TablesOf(t)[c] == Table(RowOf(t[c]), 0)
  {
  }

  lemma TablesDrop(t: map<nat, Slots>, c: nat)
    ensures TablesOf(t - {c}) == TablesOf(t) - {c}
  {
  }

  lemma RowPut(s: Slots, f: nat, e: Entry)
    requires f < |s|
    ensures RowOf(s[f := Some(e)]) == RowOf(s)[f := e]
  {
  }

  lemma RowDrop(s: Slots, f: nat)
    requires f < |s|
    ensures RowOf(s[f := None]) == RowOf(s) - {f}
  {
  }

  /** The entries still to be visited by a scan that has reached slot `i`. */
  ghost function From(row: Row, i: nat): seq<Entry> {
    EntriesAt(row, Ascending(row, i))
  }

  lemma FromStep(row: Row, i: nat)
    requires i < FD_PER_PROCESS_MAX
    ensures From(row, i) == if i in row then [row[i]] + From(row, i + 1) else From(row, i + 1)
  {
    var rest := Ascending(row, i + 1);
    if i in row {
      assert Ascending(row, i) == [i] + rest;
      assert ([i] + rest)[1..] == rest;
    }
  }

  /** One step of a scan over all slots, and over the slots marked close-on-exec. */
  lemma Visit(s: Slots, i: nat)
    requires i < |s| == FD_PER_PROCESS_MAX
    ensures From(RowOf(s), i) == (if s[i].Some? then [s[i].value] else []) + From(RowOf(s), i + 1)
    ensures var marked := Marked(RowOf(s));
      From(marked, i) == (if s[i].Some? && s[i].value.shouldCloexec then [s[i].value] else []) + From(marked, i + 1)
  {
    FromStep(RowOf(s), i);
    FromStep(Marked(RowOf(s)), i);
  }

  lemma VisitEnd(row: Row)
    ensures From(row, FD_PER_PROCESS_MAX) == []
  {
  }

  lemma AllocateKeeps(w: World, c: nat, e: Entry)
    ensures var w1 := BeginGetUnused(ArrayRows, w, c, e).world; w1.nextEpoll == w.nextEpoll && w1.epolls == w.epolls
  {
    hide LowestVacant;
  }

  lemma RemoveStart(w: World, c: nat)
    requires c in w.tables
    ensures var todo := From(w.tables[c].row, 0);
      BeginRemove(ArrayRows, w, c)
      == Start(w.(tables := w.tables - {c}, inFlight := w.inFlight + KeysOf(todo)), todo, Done, Panic)
  {
  }

  lemma ExecStart(w: World, c: nat)
    requires c in w.tables
    ensures var t := w.tables[c]; var todo := From(Marked(t.row), 0);
      BeginExec(ArrayRows, w, c)
      == Start(w.(tables := w.tables[c := t.(row := t.row - Marked(t.row).Keys)],
                  inFlight := w.inFlight + KeysOf(todo)), todo, Done, Panic)
  {
  }

  lemma CopyStart(w: World, c: nat, n: nat)
    requires c in w.tables && n !in w.tables
    ensures var w1 := IncrementAll(w, From(w.tables[c].row, 0));
      BeginCopyTable(ArrayRows, w, c, n) == Plain(w1.(tables := w.tables[n := w.tables[c]]), Done)
  {
    hide IncrementAll, EntriesAt, Ascending;
  }

  lemma SpecificStart(w: World, c: nat, f: nat, e: Entry)
    requires c in w.tables && f < FD_PER_PROCESS_MAX
    ensures
      var row := w.tables[c].row;
      var w1 := Increment(w, e).(tables := w.tables[c := w.tables[c].(row := row[f := e])]);
      BeginGetSpecific(ArrayRows, w, c, f, e)
      == if f in row then Start(w1.(inFlight := w.inFlight + multiset{KeyOf(row[f])}), [row[f]], Done, Return)
         else Start(w1, [], Done, Return)
  {
  }

  class FdTables {
    var fdtable: map<nat, Slots>
    var fdcount: map<Key, nat>
    var nextEpoll: nat
    var epolls: map<nat, EpollInfo>
    var halt: Halt
    ghost var inFlight: multiset<Key>
    ghost var misused: bool
    ghost var log: seq<Event>

    ghost predicate Valid()
      reads this
    {
      forall c :: c in fdtable ==> |fdtable[c]| == FD_PER_PROCESS_MAX
    }

    ghost function View(): World
      reads this
    {
      World(TablesOf(fdtable), fdcount, inFlight, nextEpoll, epolls, misused, log, halt)
    }

    constructor ()
      ensures Valid() && View() == EMPTY_WORLD
    {
      fdtable, fdcount, nextEpoll, epolls, halt := map[], map[], 0, map[], Running;
      inFlight, misused, log := multiset{}, false, [];
    }

    // ---- counts and handlers ----

    method IncrementFdcount(entry: Entry)
      requires Valid()
      modifies this`fdcount, this`log
      ensures Valid() && View() == Increment(old(View()), entry)
    {
      var k := KeyOf(entry);
      if k in fdcount {
        fdcount := fdcount[k := fdcount[k] + 1];
      } else {
        fdcount := fdcount[k := 1];
      }
      log := log + [Installed(k)];
    }

    /** Lower the count of an entry that is being released. */
    method LowerCount(entry: Entry)
      requires Valid() && halt == Running
      modifies this`fdcount, this`inFlight, this`log, this`halt
      ensures Valid() && View() == Decrement(old(View()), entry)
    {
      hide TablesOf;
      var k := KeyOf(entry);
      if k !in fdcount {
        halt := CountMissing;
      } else if fdcount[k] == 0 {
        halt := CountUnderflow;
      } else {
        var newcount := fdcount[k] - 1;
        var callLast;
        if newcount > 0 {
          fdcount := fdcount[k := newcount];
          callLast := false;
        } else {
          fdcount := fdcount - {k};
          callLast := true;
        }
        Note(entry, newcount, callLast);
      }
    }

    /** The reference is gone, and its handler is about to be told. */
    method Note(entry: Entry, newcount: nat, callLast: bool)
      requires Valid()
      modifies this`inFlight, this`log
      ensures Valid()
      ensures var w := old(View()).(inFlight := old(inFlight) - multiset{KeyOf(entry)});
        View() == w.(log := w.log + [Fired(entry, newcount, callLast, BooksOf(w))])
    {
      hide TablesOf;
      inFlight := inFlight - multiset{KeyOf(entry)};
      log := log + [Fired(entry, newcount, callLast, BooksOf(View()))];
    }

    /** Lower the count, then call the handler, which behaves as the first of `rs`. */
    method DecrementFdcount(entry: Entry, rs: seq<Reaction>) returns (errno: int)
      requires Valid() && halt == Running
      modifies this
      ensures Valid()
      ensures View() == Released(ArrayRows, old(View()), entry, rs) && errno == Returned(rs)
      decreases rs, 0
    {
      hide Decrement;
      errno := Returned(rs);
      LowerCount(entry);
      if rs != [] {
        if halt == Running {
          RunHandler(rs[0]);
        } else {
          HaltedStays(ArrayRows, View(), rs[0].ops);
        }
      }
    }

    /** A handler at work: it may call any operation of this table. */
    method RunHandler(r: Reaction)
      requires Valid()
      modifies this
      ensures Valid() && View() == React(ArrayRows, old(View()), r)
      decreases r, 0
    {
      var i := 0;
      assert r.ops[0..] == r.ops;
      while i < |r.ops|
        invariant i <= |r.ops| && Valid()
        invariant RunAll(ArrayRows, View(), r.ops[i..]) == RunAll(ArrayRows, old(View()), r.ops)
      {
        assert r.ops[i..][1..] == r.ops[i + 1..];
        var o := Execute(r.ops[i]);
        i := i + 1;
      }
    }

    /** Any API call. */
    method Execute(op: Op) returns (o: Outcome)
      requires Valid()
      modifies this
      ensures Valid() && (View(), o) == Run(ArrayRows, old(View()), op)
      decreases op, 0
    {
      if halt != Running {
        return Panicked;
      }
      hide Valid, View, Noting, Drain;
      hide BeginInit, BeginTranslate, BeginGetUnused, BeginGetUnusedFrom, BeginGetSpecific, BeginSet, BeginCopyTable;
      hide BeginRemove, BeginExec, BeginClose, BeginEpollCreate, BeginEpollAddUnder, BeginEpollCtl, BeginEpollWait;
      ghost var s := Begin(ArrayRows, View(), op.call);
      assert Run(ArrayRows, View(), op) == Drain(ArrayRows, s.world, s.todo, op.reactions, s.onError, s.outcome);
      if op.call.GetSpecific? {
        hide Run;
        o := GetSpecificVirtualFd(op.call.cage, op.call.fd, op.call.entry, op.reactions);
      } else if op.call.RemoveCage? {
        hide Run;
        o := RemoveCageFromFdtable(op.call.cage, op.reactions);
      } else if op.call.EmptyForExec? {
        hide Run;
        o := EmptyFdsForExec(op.call.cage, op.reactions);
      } else if op.call.Close? {
        hide Run;
        o := CloseVirtualfd(op.call.cage, op.call.fd, op.reactions);
      } else {
        hide Run, Begin;
        PlainCall(ArrayRows, View(), op);
        o := ExecutePlain(op.call);
      }
    }

    /** A call that closes nothing, so that no handler runs. */
    method ExecutePlain(call: Call) returns (o: Outcome)
      requires Valid() && halt == Running
      requires !call.GetSpecific? && !call.RemoveCage? && !call.EmptyForExec? && !call.Close?
      modifies this
      ensures Valid()
      ensures var s := Begin(ArrayRows, old(View()), call); View() == s.world && o == s.outcome
    {
      hide Valid, View, Noting, Drain;
      hide BeginInit, BeginTranslate, BeginGetUnused, BeginGetUnusedFrom, BeginGetSpecific, BeginSet, BeginCopyTable;
      hide BeginRemove, BeginExec, BeginClose, BeginEpollCreate, BeginEpollAddUnder, BeginEpollCtl, BeginEpollWait;
      match call
      case InitCage(c) => o := InitEmptyCage(c);
      case Translate(c, f) => o := TranslateVirtualFd(c, f);
      case GetUnused(c, e) => o := GetUnusedVirtualFd(c, e);
      case GetUnusedFrom(c, e, start) => o := GetUnusedVirtualFdFromStartfd(c, e, start);
      case SetCloexec(c, f, flag) => o := SetCloexecFlag(c, f, flag);
      case SetPerfdinfo(c, f, info) => o := SetPerfdinfoValue(c, f, info);
      case CopyTable(c, n) => o := CopyFdtableForCage(c, n);
      case EpollCreate(c, cloexec) => o := EpollCreateEmpty(c, cloexec);
      case EpollAddUnder(c, f, kind, under) => o := EpollAddUnderfd(c, f, kind, under);
      case EpollCtl(c, ep, ctl, f) => o := VirtualizeEpollCtl(c, ep, ctl, f);
      case EpollWait(c, ep) => o := GetVirtualEpollWaitData(c, ep);
    }

    // ---- tables ----

    method InitEmptyCage(cageid: nat) returns (o: Outcome)
      requires Valid() && halt == Running
      modifies this
      ensures Valid()
      ensures var s := BeginInit(old(View()), cageid); View() == s.world && o == s.outcome
    {
      if cageid in fdtable {
        halt := KnownCage;
        return Panicked;
      }
      var empty := seq(FD_PER_PROCESS_MAX, _ => None);
      fdtable := fdtable[cageid := empty];
      assert RowOf(empty) == map[];
      o := Done;
    }

    method TranslateVirtualFd(cageid: nat, virtualfd: nat) returns (o: Outcome)
      requires Valid() && halt == Running
      modifies this
      ensures Valid()
      ensures var s := BeginTranslate(old(View()), cageid, virtualfd); View() == s.world && o == s.outcome
    {
      if cageid !in fdtable {
        halt := UnknownCage;
        return Panicked;
      }
      if virtualfd >= FD_PER_PROCESS_MAX {
        return Failed(EBADFD);
      }
      match fdtable[cageid][virtualfd]
      case Some(entry) => o := Found(entry);
      case None => o := Failed(EBADFD);
    }

    /** The scan both allocators share: the first vacant slot at or above `start`. */
    method FirstVacant(slots: Slots, start: nat) returns (r: Option<nat>)
      requires |slots| == FD_PER_PROCESS_MAX
      ensures r == LowestVacant(RowOf(slots), start)
    {
      var f := start;
      while f < FD_PER_PROCESS_MAX
        invariant LowestVacant(RowOf(slots), f) == LowestVacant(RowOf(slots), start)
      {
        if slots[f].None? {
          return Some(f);
        }
        f := f + 1;
      }
      r := None;
    }

    method GetUnusedVirtualFd(cageid: nat, entry: Entry) returns (o: Outcome)
      requires Valid() && halt == Running
      modifies this
      ensures Valid()
      ensures var s := BeginGetUnused(ArrayRows, Noting(old(View()), entry), cageid, entry); View() == s.world && o == s.outcome
    {
      misused := misused || Foreign(View(), entry);
      assert View() == Noting(old(View()), entry);
      hide Noting, LowestVacant;
      o := Allocate(cageid, entry, 0);
    }

    method GetUnusedVirtualFdFromStartfd(cageid: nat, entry: Entry, arg: nat) returns (o: Outcome)
      requires Valid() && halt == Running
      modifies this
      ensures Valid()
      ensures var s := BeginGetUnusedFrom(ArrayRows, Noting(old(View()), entry), cageid, entry, arg); View() == s.world && o == s.outcome
    {
      misused := misused || Foreign(View(), entry);
      assert View() == Noting(old(View()), entry);
      hide Noting, LowestVacant;
      o := Allocate(cageid, entry, arg);
    }

    method Allocate(cageid: nat, entry: Entry, start: nat) returns (o: Outcome)
      requires Valid() && halt == Running
      modifies this
      ensures Valid()
      ensures var s := BeginGetUnusedFrom(ArrayRows, old(View()), cageid, entry, start); View() == s.world && o == s.outcome
    {
      if cageid !in fdtable {
        halt := UnknownCage;
        return Panicked;
      }
      var slots := fdtable[cageid];
      var found := FirstVacant(slots, start);
      match found
      case None => o := Failed(EMFILE);
      case Some(f) =>
        RowPut(slots, f, entry);
        TablesPut(fdtable, cageid, slots[f := Some(entry)]);
        fdtable := fdtable[cageid := slots[f := Some(entry)]];
        IncrementFdcount(entry);
        o := NewFd(f);
    }

    /** Release one entry on behalf of a call that passes a handler's error on. */
    method CloseEntry(gone: Entry, rs: seq<Reaction>) returns (o: Outcome)
      requires Valid() && halt == Running
      modifies this
      ensures Valid() && (View(), o) == Drain(ArrayRows, old(View()), [gone], rs, Return, Done)
      decreases rs, 1
    {
      DrainStep(ArrayRows, View(), [gone], rs, Return, Done);
      DrainEnd(ArrayRows, Released(ArrayRows, View(), gone, rs), [gone][1..], Rest(rs), Return, Done);
      hide Drain, Released;
      var errno := DecrementFdcount(gone, rs);
      if halt != Running {
        o := Panicked;
      } else if errno != 0 {
        o := HandlerError(errno);
      } else {
        o := Done;
      }
    }

    /** Count the new entry, then let it take the slot over; the old one stays counted for now. */
    method Exchange(cageid: nat, requested: nat, entry: Entry) returns (before: Option<Entry>)
      requires Valid() && cageid in fdtable && requested < FD_PER_PROCESS_MAX
      modifies this`fdtable, this`fdcount, this`log, this`inFlight
      ensures Valid()
      ensures var s := BeginGetSpecific(ArrayRows, old(View()), cageid, requested, entry);
        && View() == s.world && s.outcome == Done && s.onError == Return
        && s.todo == if before.Some? then [before.value] else []
    {
      SpecificStart(View(), cageid, requested, entry);
      hide BeginGetSpecific, Increment;
      before := fdtable[cageid][requested];
      assert requested in RowOf(fdtable[cageid]) <==> before.Some?;
      assert TablesOf(fdtable)[cageid] == Table(RowOf(fdtable[cageid]), 0);
      IncrementFdcount(entry);
      PutSlot(cageid, requested, Some(entry));
      if before.Some? {
        inFlight := inFlight + multiset{KeyOf(before.value)};
      }
    }

    method GetSpecificVirtualFd(cageid: nat, requested: nat, entry: Entry, rs: seq<Reaction>) returns (o: Outcome)
      requires Valid() && halt == Running
      modifies this
      ensures Valid()
      ensures var s := BeginGetSpecific(ArrayRows, Noting(old(View()), entry), cageid, requested, entry);
        (View(), o) == Drain(ArrayRows, s.world, s.todo, rs, s.onError, s.outcome)
      decreases rs, 2
    {
      hide Foreign, Drain;
      ghost var s := BeginGetSpecific(ArrayRows, Noting(View(), entry), cageid, requested, entry);
      misused := misused || Foreign(View(), entry);
      assert View() == Noting(old(View()), entry);
      hide Noting;
      if cageid !in fdtable {
        NoTable(fdtable, cageid);
        hide TablesOf;
        halt := UnknownCage;
        DrainEnd(ArrayRows, s.world, s.todo, rs, s.onError, s.outcome);
        return Panicked;
      }
      assert cageid in View().tables;
      hide TablesOf;
      if requested > FD_PER_PROCESS_MAX {
        DrainEnd(ArrayRows, s.world, s.todo, rs, s.onError, s.outcome);
        return Failed(EBADF);
      }
      if requested == FD_PER_PROCESS_MAX {
        IncrementFdcount(entry);
        inFlight := inFlight + multiset{KeyOf(entry)};
        halt := OutOfBounds;
        hide Increment;
        DrainEnd(ArrayRows, s.world, s.todo, rs, s.onError, s.outcome);
        return Panicked;
      }
      hide BeginGetSpecific;
      var before := Exchange(cageid, requested, entry);
      if before.Some? {
        o := CloseEntry(before.value, rs);
      } else {
        DrainEnd(ArrayRows, View(), [], rs, Return, Done);
        o := Done;
      }
    }

    method SetCloexecFlag(cageid: nat, virtualfd: nat, isCloexec: bool) returns (o: Outcome)
      requires Valid() && halt == Running
      modifies this
      ensures Valid()
      ensures var s := BeginSet(ArrayRows, old(View()), cageid, virtualfd, Cloexec(isCloexec)); View() == s.world && o == s.outcome
    {
      hide BeginSet;
      o := UpdateSlot(cageid, virtualfd, Cloexec(isCloexec));
    }

    method SetPerfdinfoValue(cageid: nat, virtualfd: nat, perfdinfo: nat) returns (o: Outcome)
      requires Valid() && halt == Running
      modifies this
      ensures Valid()
      ensures var s := BeginSet(ArrayRows, old(View()), cageid, virtualfd, Perfdinfo(perfdinfo)); View() == s.world && o == s.outcome
    {
      hide BeginSet;
      o := UpdateSlot(cageid, virtualfd, Perfdinfo(perfdinfo));
    }

    /** Change one field of one slot. */
    method UpdateSlot(cageid: nat, virtualfd: nat, change: Change) returns (o: Outcome)
      requires Valid() && halt == Running
      modifies this
      ensures Valid()
      ensures var s := BeginSet(ArrayRows, old(View()), cageid, virtualfd, change); View() == s.world && o == s.outcome
    {
      if cageid !in fdtable {
        halt := UnknownCage;
        return Panicked;
      }
      if virtualfd >= FD_PER_PROCESS_MAX {
        halt := OutOfBounds;
        return Panicked;
      }
      match fdtable[cageid][virtualfd]
      case None => o := Failed(EBADFD);
      case Some(entry) =>
        PutSlot(cageid, virtualfd, Some(Apply(change, entry)));
        o := Done;
    }

    method PutSlot(cageid: nat, virtualfd: nat, v: Option<Entry>)
      requires Valid() && cageid in fdtable && virtualfd < FD_PER_PROCESS_MAX
      modifies this`fdtable
      ensures Valid()
      ensures var row := RowOf(old(fdtable)[cageid]);
        View() == WithRow(old(View()), cageid, if v.Some? then row[virtualfd := v.value] else row - {virtualfd})
    {
      var slots := fdtable[cageid];
      if v.Some? {
        RowPut(slots, virtualfd, v.value);
      } else {
        RowDrop(slots, virtualfd);
      }
      TablesPut(fdtable, cageid, slots[virtualfd := v]);
      fdtable := fdtable[cageid := slots[virtualfd := v]];
    }

    /** Count one more reference for every entry of a row. */
    method IncrementSlots(slots: Slots)
      requires Valid() && |slots| == FD_PER_PROCESS_MAX
      modifies this`fdcount, this`log
      ensures Valid() && View() == IncrementAll(old(View()), From(RowOf(slots), 0))
    {
      hide From, RowOf, Increment;
      ghost var row := RowOf(slots);
      var i := 0;
      while i < FD_PER_PROCESS_MAX
        invariant i <= FD_PER_PROCESS_MAX && Valid()
        invariant IncrementAll(View(), From(row, i)) == IncrementAll(old(View()), From(row, 0))
      {
        Visit(slots, i);
        if slots[i].Some? {
          assert From(row, i)[0] == slots[i].value && From(row, i)[1..] == From(row, i + 1);
          IncrementFdcount(slots[i].value);
        } else {
          assert From(row, i) == From(row, i + 1);
        }
        i := i + 1;
      }
      VisitEnd(row);
    }

    method CopyFdtableForCage(srccageid: nat, newcageid: nat) returns (o: Outcome)
      requires Valid() && halt == Running
      modifies this
      ensures Valid()
      ensures var s := BeginCopyTable(ArrayRows, old(View()), srccageid, newcageid); View() == s.world && o == s.outcome
    {
      if srccageid !in fdtable {
        halt := UnknownCage;
        return Panicked;
      }
      if newcageid in fdtable {
        halt := KnownCage;
        return Panicked;
      }
      var hmcopy := fdtable[srccageid];
      CopyStart(View(), srccageid, newcageid);
      assert TablesOf(fdtable)[srccageid] == Table(RowOf(hmcopy), 0);
      TablesPut(fdtable, newcageid, hmcopy);
      hide BeginCopyTable, From, IncrementAll, TablesOf, RowOf;
      IncrementSlots(hmcopy);
      fdtable := fdtable[newcageid := hmcopy];
      o := Done;
    }

    /** The occupied slots of a row, in order. */
    method Flatten(slots: Slots) returns (es: seq<Entry>)
      requires |slots| == FD_PER_PROCESS_MAX
      ensures es == From(RowOf(slots), 0)
    {
      hide From, RowOf;
      ghost var row := RowOf(slots);
      es := [];
      var i := 0;
      while i < FD_PER_PROCESS_MAX
        invariant i <= FD_PER_PROCESS_MAX
        invariant es + From(row, i) == From(row, 0)
      {
        Visit(slots, i);
        if slots[i].Some? {
          es := es + [slots[i].value];
        }
        i := i + 1;
      }
      VisitEnd(row);
    }

    /** Take a cage's table out, and list what it held. */
    method TakeTable(cageid: nat) returns (entries: seq<Entry>)
      requires Valid() && cageid in fdtable
      modifies this`fdtable, this`inFlight
      ensures Valid()
      ensures var s := BeginRemove(ArrayRows, old(View()), cageid);
        View() == s.world && entries == s.todo && s.outcome == Done && s.onError == Panic
    {
      hide From, KeysOf, BeginRemove, TablesOf, RowOf;
      TableAt(fdtable, cageid);
      TablesDrop(fdtable, cageid);
      RemoveStart(View(), cageid);
      var myfdrow := fdtable[cageid];
      fdtable := fdtable - {cageid};
      entries := Flatten(myfdrow);
      inFlight := inFlight + KeysOf(entries);
    }

    method RemoveCageFromFdtable(cageid: nat, rs: seq<Reaction>) returns (o: Outcome)
      requires Valid() && halt == Running
      modifies this
      ensures Valid()
      ensures var s := BeginRemove(ArrayRows, old(View()), cageid);
        (View(), o) == Drain(ArrayRows, s.world, s.todo, rs, s.onError, s.outcome)
      decreases rs, 3
    {
      hide TablesOf;
      if cageid !in fdtable {
        assert cageid !in View().tables by { NoTable(fdtable, cageid); }
        return Done;
      }
      hide Drain, BeginRemove;
      var entries := TakeTable(cageid);
      o := ReleaseEntries(entries, rs);
    }

    /** Empty the slots marked close-on-exec, and list what they held. */
    method TakeMarked(before: Slots) returns (myfdrow: Slots, closevec: seq<Entry>)
      requires |before| == FD_PER_PROCESS_MAX
      ensures |myfdrow| == FD_PER_PROCESS_MAX
      ensures RowOf(myfdrow) == RowOf(before) - Marked(RowOf(before)).Keys
      ensures closevec == From(Marked(RowOf(before)), 0)
    {
      ghost var marked := Marked(RowOf(before));
      hide From;
      myfdrow, closevec := before, [];
      var item := 0;
      while item < FD_PER_PROCESS_MAX
        invariant item <= FD_PER_PROCESS_MAX == |myfdrow|
        invariant closevec + From(marked, item) == From(marked, 0)
        invariant forall f :: 0 <= f < FD_PER_PROCESS_MAX ==>
          myfdrow[f] == if f < item && before[f].Some? && before[f].value.shouldCloexec then None else before[f]
      {
        Visit(before, item);
        if myfdrow[item].Some? && myfdrow[item].value.shouldCloexec {
          closevec := closevec + [myfdrow[item].value];
          myfdrow := myfdrow[item := None];
        }
        item := item + 1;
      }
      VisitEnd(marked);
    }

    method EmptyFdsForExec(cageid: nat, rs: seq<Reaction>) returns (o: Outcome)
      requires Valid() && halt == Running
      modifies this
      ensures Valid()
      ensures var s := BeginExec(ArrayRows, old(View()), cageid);
        (View(), o) == Drain(ArrayRows, s.world, s.todo, rs, s.onError, s.outcome)
      decreases rs, 3
    {
      ghost var s := BeginExec(ArrayRows, View(), cageid);
      if cageid !in fdtable {
        halt := UnknownCage;
        return Panicked;
      }
      ExecStart(View(), cageid);
      hide BeginExec, Drain, From, KeysOf, Marked, RowOf;
      assert View().tables[cageid] == Table(RowOf(fdtable[cageid]), 0);
      var myfdrow, closevec := TakeMarked(fdtable[cageid]);
      hide TablesOf;
      TablesPut(fdtable, cageid, myfdrow);
      fdtable := fdtable[cageid := myfdrow];
      inFlight := inFlight + KeysOf(closevec);
      assert View() == s.world && closevec == s.todo;
      o := ReleaseEntries(closevec, rs);
    }

    /** Release a list of entries in order. */
    method ReleaseEntries(todo: seq<Entry>, rs: seq<Reaction>) returns (o: Outcome)
      requires Valid() && halt == Running
      modifies this
      ensures Valid() && (View(), o) == Drain(ArrayRows, old(View()), todo, rs, Panic, Done)
      decreases rs, 2
    {
      ghost var target := Drain(ArrayRows, View(), todo, rs, Panic, Done);
      var i, j := 0, 0;
      assert rs[0..] == rs && todo[0..] == todo;
      while i < |todo|
        invariant i <= |todo| && j <= |rs| && Valid() && halt == Running
        invariant Drain(ArrayRows, View(), todo[i..], rs[j..], Panic, Done) == target
      {
        assert todo[i..][1..] == todo[i + 1..];
        assert j < |rs| ==> rs[j..][1..] == rs[j + 1..];
        DrainStep(ArrayRows, View(), todo[i..], rs[j..], Panic, Done);
        hide Drain, Released;
        var errno := DecrementFdcount(todo[i], rs[j..]);
        if halt != Running {
          return Panicked;
        }
        if errno != 0 {
          halt := HandlerFailed;
          return Panicked;
        }
        i, j := i + 1, if j < |rs| then j + 1 else j;
      }
      o := Done;
    }

    method ReturnFdtableCopy(cageid: nat) returns (r: Option<Row>)
      requires Valid()
      ensures r == if cageid in View().tables then Some(View().tables[cageid].row) else None
    {
      if cageid !in fdtable {
        return None;
      }
      var myfdrow := fdtable[cageid];
      var copy: Row := map[];
      var item := 0;
      while item < FD_PER_PROCESS_MAX
        invariant item <= FD_PER_PROCESS_MAX
        invariant copy == map f: nat | f < item && myfdrow[f].Some? :: myfdrow[f].value
      {
        if myfdrow[item].Some? {
          copy := copy[item := myfdrow[item].value];
        }
        item := item + 1;
      }
      r := Some(copy);
    }

    method CloseVirtualfd(cageid: nat, virtfd: nat, rs: seq<Reaction>) returns (o: Outcome)
      requires Valid() && halt == Running
      modifies this
      ensures Valid()
      ensures var s := BeginClose(old(View()), cageid, virtfd);
        (View(), o) == Drain(ArrayRows, s.world, s.todo, rs, s.onError, s.outcome)
      decreases rs, 2
    {
      ghost var s := BeginClose(View(), cageid, virtfd);
      if virtfd >= FD_PER_PROCESS_MAX {
        return Failed(EBADFD);
      }
      if cageid !in fdtable {
        halt := UnknownCage;
        return Panicked;
      }
      match fdtable[cageid][virtfd]
      case None => o := Failed(EBADFD);
      case Some(entry) =>
        PutSlot(cageid, virtfd, None);
        inFlight := inFlight + multiset{KeyOf(entry)};
        assert View() == s.world && s.todo == [entry];
        hide Drain;
        o := CloseEntry(entry, rs);
    }

    // ---- epoll ----

    method EpollCreateEmpty(cageid: nat, cloexec: bool) returns (o: Outcome)
      requires Valid() && halt == Running
      modifies this
      ensures Valid()
      ensures var s := BeginEpollCreate(ArrayRows, old(View()), cageid, cloexec); View() == s.world && o == s.outcome
    {
      ghost var e := Entry(FDT_KINDEPOLL, nextEpoll, cloexec, 0);
      assert BeginGetUnused(ArrayRows, View(), cageid, e) == BeginGetUnusedFrom(ArrayRows, View(), cageid, e, 0);
      AllocateKeeps(View(), cageid, e);
      hide BeginGetUnused, BeginGetUnusedFrom;
      o := Allocate(cageid, Entry(FDT_KINDEPOLL, nextEpoll, cloexec, 0), 0);
      hide TablesOf;
      if o.NewFd? {
        NewRecord();
      }
    }

    /** An empty record under the next number, unless there is one. */
    method NewRecord()
      requires Valid()
      modifies this`epolls, this`nextEpoll
      ensures Valid()
      ensures var w := old(View());
        var info := if w.nextEpoll in w.epolls then w.epolls[w.nextEpoll] else EpollInfo(map[], map[]);
        View() == w.(epolls := w.epolls[w.nextEpoll := info], nextEpoll := w.nextEpoll + 1)
    {
      if nextEpoll !in epolls {
        epolls := epolls[nextEpoll := EpollInfo(map[], map[])];
      } else {
        assert epolls[nextEpoll := epolls[nextEpoll]] == epolls;
      }
      nextEpoll := nextEpoll + 1;
    }

    method EpollEntrynum(cageid: nat, epfd: nat) returns (r: Result)
      requires Valid() && cageid in fdtable
      ensures r == EpollNumber(ArrayRows, View(), cageid, epfd)
    {
      if epfd >= FD_PER_PROCESS_MAX {
        return Bad(OutOfBounds);
      }
      match fdtable[cageid][epfd]
      case None => r := Err(EBADF);
      case Some(entry) => r := if entry.fdkind == FDT_KINDEPOLL then Number(entry.underfd) else Err(EINVAL);
    }

    method EpollAddUnderfd(cageid: nat, virtepollfd: nat, fdkind: nat, underfd: nat) returns (o: Outcome)
      requires Valid() && halt == Running
      modifies this
      ensures Valid()
      ensures var s := BeginEpollAddUnder(ArrayRows, old(View()), cageid, virtepollfd, fdkind, underfd);
        View() == s.world && o == s.outcome
    {
      if cageid !in fdtable {
        halt := UnknownCage;
        return Panicked;
      }
      var num := EpollEntrynum(cageid, virtepollfd);
      match num
      case Bad(h) =>
        halt := h;
        o := Panicked;
      case Err(e) => o := Failed(e);
      case Number(n) =>
        if n !in epolls {
          halt := EpollRecordMissing;
          o := Panicked;
        } else if fdkind in epolls[n].under {
          halt := DuplicateUnderfd;
          o := Panicked;
        } else {
          epolls := epolls[n := epolls[n].(under := epolls[n].under[fdkind := underfd])];
          o := Done;
        }
    }

    method VirtualizeEpollCtl(cageid: nat, epfd: nat, op: EpollOp, virtfd: nat) returns (o: Outcome)
      requires Valid() && halt == Running
      modifies this
      ensures Valid()
      ensures var s := BeginEpollCtl(ArrayRows, old(View()), cageid, epfd, op, virtfd); View() == s.world && o == s.outcome
    {
      if cageid !in fdtable {
        halt := UnknownCage;
        return Panicked;
      }
      if epfd == virtfd {
        return Failed(EINVAL);
      }
      var num := EpollEntrynum(cageid, epfd);
      match num
      case Bad(h) =>
        halt := h;
        o := Panicked;
      case Err(e) => o := Failed(e);
      case Number(n) =>
        if virtfd >= FD_PER_PROCESS_MAX {
          halt := OutOfBounds;
          return Panicked;
        }
        if fdtable[cageid][virtfd].None? {
          return Failed(EBADF);
        }
        var virtfdkind := fdtable[cageid][virtfd].value.fdkind;
        if virtfdkind == FDT_KINDEPOLL {
          return Failed(ENOSYS);
        }
        if n !in epolls {
          halt := EpollRecordMissing;
          return Panicked;
        }
        hide Control;
        var handled;
        handled, o := ChangeHandled(epolls[n].handled, op, virtfdkind, virtfd);
        epolls := epolls[n := epolls[n].(handled := handled)];
    }

    method GetVirtualEpollWaitData(cageid: nat, epfd: nat) returns (o: Outcome)
      requires Valid() && halt == Running
      modifies this
      ensures Valid()
      ensures var s := BeginEpollWait(ArrayRows, old(View()), cageid, epfd); View() == s.world && o == s.outcome
    {
      if cageid !in fdtable {
        halt := UnknownCage;
        return Panicked;
      }
      var num := EpollEntrynum(cageid, epfd);
      match num
      case Bad(h) =>
        halt := h;
        o := Panicked;
      case Err(e) => o := Failed(e);
      case Number(n) =>
        if n !in epolls {
          halt := EpollRecordMissing;
          o := Panicked;
        } else {
          o := WaitData(epolls[n].handled);
        }
    }
  }
}
