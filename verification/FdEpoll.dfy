/**
 Epoll descriptors. Every slot of the epoll kind names a live record, so no lookup ever
 fails, and the control operations act on the record as a partial map from
 (fdkind, descriptor) to event.
 */
module FdEpoll {
  import opened Options
  import opened FdTypes
  import opened FdSemantics
  import opened FdCounts
  import opened FdTheorems

  // ---- one record ----

  type Handled = map<nat, map<nat, nat>>

  /** The record read as one partial map from (fdkind, descriptor) to event. */
  function At(h: Handled, k: nat, f: nat): Option<nat> {
    if k in h && f in h[k] then Some(h[k][f]) else None
  }

  ghost predicate NoEmptyInner(h: Handled) {
    forall k :: k in h ==> h[k] != map[]
  }

  /** `h1` is `h` with (k, f) now holding `v`. */
  ghost predicate Updated(h: Handled, h1: Handled, k: nat, f: nat, v: Option<nat>) {
    forall a: nat, b: nat :: At(h1, a, b) == if a == k && b == f then v else At(h, a, b)
  }

  /** ADD, MOD and DEL are insert-if-absent, replace-if-present and remove-if-present. */
  lemma ControlIsPartialMap(h: Handled, op: EpollOp, k: nat, f: nat)
    requires NoEmptyInner(h)
    ensures var (h1, o) := Control(h, op, k, f); var present := At(h, k, f).Some?;
      && NoEmptyInner(h1)
      && match op
         case Add(ev) =>
           if present then o == Failed(EEXIST) && h1 == h else o == Done && Updated(h, h1, k, f, Some(ev))
         case Mod(ev) =>
           if present then o == Done && Updated(h, h1, k, f, Some(ev)) else o == Failed(ENOENT) && h1 == h
         case Del =>
           if present then o == Done && Updated(h, h1, k, f, None) else o == Failed(ENOENT) && h1 == h
         case Unsupported => o == Failed(EINVAL) && h1 == h
  {
    var (h1, o) := Control(h, op, k, f);
    if op.Del? && At(h, k, f).Some? {
      var inner := h[k] - {f};
      assert forall g :: g in h[k] && g != f ==> g in inner;
    } else if op.Add? && At(h, k, f).Some? {
      assert h[k := h[k]] == h;
    }
  }

  /** What an observer of the record can tell determines it: nothing else is stored. */
  lemma LookupDetermines(h1: Handled, h2: Handled)
    requires NoEmptyInner(h1) && NoEmptyInner(h2)
    requires forall k: nat, f: nat :: At(h1, k, f) == At(h2, k, f)
    ensures h1 == h2
  {
    forall k: nat ensures k in h1 <==> k in h2 ensures k in h1 && k in h2 ==> h1[k] == h2[k] {
      if k in h1 {
        var f :| f in h1[k];
        assert At(h1, k, f).Some?;
      }
      if k in h2 {
        var f :| f in h2[k];
        assert At(h2, k, f).Some?;
      }
      if k in h1 && k in h2 {
        forall f: nat ensures f in h1[k] <==> f in h2[k] ensures f in h1[k] && f in h2[k] ==> h1[k][f] == h2[k][f] {
          assert At(h1, k, f) == At(h2, k, f);
        }
      }
    }
  }

  // ---- records behind descriptors ----

  ghost predicate RecordsLive(tables: map<nat, Table>, epolls: map<nat, EpollInfo>) {
    forall c, f :: c in tables && f in tables[c].row && tables[c].row[f].fdkind == FDT_KINDEPOLL
      ==> tables[c].row[f].underfd in epolls
  }

  /** Unless a caller forged an epoll entry, every epoll slot names a record. */
  ghost predicate EpollOk(w: World) {
    && (forall n :: n in w.epolls ==> n < w.nextEpoll && NoEmptyInner(w.epolls[n].handled))
    && (!w.misused ==> RecordsLive(w.tables, w.epolls) && w.halt != EpollRecordMissing)
  }

  /** Filling a slot with an entry that is not foreign keeps every epoll slot live. */
  lemma SlotLive(w: World, c: nat, f: nat, e: Entry, high: nat)
    requires RecordsLive(w.tables, w.epolls) && c in w.tables && !Foreign(w, e)
    ensures RecordsLive(w.tables[c := Table(w.tables[c].row[f := e], high)], w.epolls)
  {
    if e.fdkind == FDT_KINDEPOLL {
      var d, g :| d in w.tables && g in w.tables[d].row && KeyOf(w.tables[d].row[g]) == KeyOf(e);
      assert w.tables[d].row[g].underfd in w.epolls;
    }
  }

  /** A slot filled under a first part that noted its caller's entry. */
  lemma FilledOk(w: World, w1: World, c: nat, f: nat, e: Entry)
    requires EpollOk(w) && c in w.tables && c in w1.tables && w1.misused == (w.misused || Foreign(w, e))
    requires w1.tables == w.tables[c := Table(w.tables[c].row[f := e], w1.tables[c].high)]
    requires w1.epolls == w.epolls && w1.nextEpoll == w.nextEpoll && w1.halt != EpollRecordMissing
    ensures EpollOk(w1)
  {
    if !w1.misused {
      SlotLive(w, c, f, e, w1.tables[c].high);
    }
    hide NoEmptyInner;
  }

  lemma SameOk(w: World, w1: World)
    requires EpollOk(w) && w1.tables == w.tables && w1.epolls == w.epolls && w1.nextEpoll == w.nextEpoll
    requires (w.misused ==> w1.misused) && w1.halt != EpollRecordMissing
    ensures EpollOk(w1)
  {
    hide NoEmptyInner;
  }

  lemma UnusedOk(b: Backend, w: World, c: nat, e: Entry, start: nat)
    requires EpollOk(w) && w.halt == Running
    ensures EpollOk(BeginGetUnused(b, Noting(w, e), c, e).world)
    ensures EpollOk(BeginGetUnusedFrom(b, Noting(w, e), c, e, start).world)
  {
    hide EpollOk, LowestVacant, Foreign;
    var s := BeginGetUnused(b, Noting(w, e), c, e);
    if s.outcome.NewFd? { FilledOk(w, s.world, c, s.outcome.fd, e); } else { SameOk(w, s.world); }
    UnusedFromOk(b, w, c, e, start);
  }

  lemma UnusedFromOk(b: Backend, w: World, c: nat, e: Entry, start: nat)
    requires EpollOk(w) && w.halt == Running
    ensures EpollOk(BeginGetUnusedFrom(b, Noting(w, e), c, e, start).world)
  {
    hide EpollOk, LowestVacant, Foreign;
    var s := BeginGetUnusedFrom(b, Noting(w, e), c, e, start);
    if s.outcome.NewFd? { FilledOk(w, s.world, c, s.outcome.fd, e); } else { SameOk(w, s.world); }
  }

  lemma SpecificOk(b: Backend, w: World, c: nat, f: nat, e: Entry)
    requires EpollOk(w) && w.halt == Running
    ensures EpollOk(BeginGetSpecific(b, Noting(w, e), c, f, e).world)
  {
    hide EpollOk, Foreign;
    SpecificFrame(b, Noting(w, e), c, f, e);
    var w1 := BeginGetSpecific(b, Noting(w, e), c, f, e).world;
    hide BeginGetSpecific;
    if Unfilled(b, w, c, f) {
      SpecificUnfilled(b, Noting(w, e), c, f, e);
      SameOk(w, w1);
    } else {
      SpecificFills(b, Noting(w, e), c, f, e);
      FilledOk(w, w1, c, f, e);
    }
  }

  /** A specific descriptor that no slot is filled for: no such cage, or out of range. */
  predicate Unfilled(b: Backend, w: World, c: nat, f: nat) {
    c !in w.tables || f > FD_PER_PROCESS_MAX || (b.ArrayRows? && f >= FD_PER_PROCESS_MAX)
  }

  lemma SpecificFrame(b: Backend, w: World, c: nat, f: nat, e: Entry)
    requires w.halt == Running
    ensures var w1 := BeginGetSpecific(b, w, c, f, e).world;
      w1.epolls == w.epolls && w1.nextEpoll == w.nextEpoll && w1.misused == w.misused && w1.halt != EpollRecordMissing
  {
    hide KeyOf;
  }

  lemma SpecificUnfilled(b: Backend, w: World, c: nat, f: nat, e: Entry)
    requires Unfilled(b, w, c, f)
    ensures BeginGetSpecific(b, w, c, f, e).world.tables == w.tables
  {
    hide KeyOf;
  }

  /** A specific descriptor fills one slot. */
  lemma SpecificFills(b: Backend, w: World, c: nat, f: nat, e: Entry)
    requires !Unfilled(b, w, c, f)
    ensures var w1 := BeginGetSpecific(b, w, c, f, e).world;
      c in w1.tables && w1.tables == w.tables[c := Table(w.tables[c].row[f := e], w1.tables[c].high)]
  {
    var high := if b.HighWater? && f >= w.tables[c].high then f + 1 else w.tables[c].high;
    var w1 := BeginGetSpecific(b, w, c, f, e).world;
    assert w1.tables == w.tables[c := Table(w.tables[c].row[f := e], high)];
    hide BeginGetSpecific;
    assert w1.tables[c].high == high;
  }

  lemma CreateOk(b: Backend, w: World, c: nat, cloexec: bool)
    requires EpollOk(w) && w.halt == Running
    ensures EpollOk(BeginEpollCreate(b, w, c, cloexec).world)
  {
    var e := Entry(FDT_KINDEPOLL, w.nextEpoll, cloexec, 0);
    UnusedFrame(b, w, c, e);
    hide BeginGetUnused, EpollOk;
    var s := BeginGetUnused(b, w, c, e);
    if s.outcome.NewFd? {
      CreatedOk(w, BeginEpollCreate(b, w, c, cloexec).world, c, s.outcome.fd, e);
    } else {
      SameOk(w, s.world);
    }
  }

  /** A new descriptor fills one slot; without one nothing changes. */
  lemma UnusedFrame(b: Backend, w: World, c: nat, e: Entry)
    requires w.halt == Running
    ensures var s := BeginGetUnused(b, w, c, e);
      && s.world.epolls == w.epolls && s.world.nextEpoll == w.nextEpoll && s.world.misused == w.misused
      && s.world.halt != EpollRecordMissing
      && (if s.outcome.NewFd? then c in w.tables && c in s.world.tables
            && s.world.tables == w.tables[c := Table(w.tables[c].row[s.outcome.fd := e], s.world.tables[c].high)]
          else s.world.tables == w.tables)
  {
    hide LowestVacant, KeyOf;
  }

  /** The descriptor of a new record. */
  lemma CreatedOk(w: World, w1: World, c: nat, f: nat, e: Entry)
    requires EpollOk(w) && c in w.tables && c in w1.tables && e.fdkind == FDT_KINDEPOLL && e.underfd == w.nextEpoll
    requires w1.tables == w.tables[c := Table(w.tables[c].row[f := e], w1.tables[c].high)]
    requires var n := w.nextEpoll; var info := if n in w.epolls then w.epolls[n] else EpollInfo(map[], map[]);
      w1.epolls == w.epolls[n := info] && w1.nextEpoll == n + 1
    requires w1.misused == w.misused && w1.halt != EpollRecordMissing
    ensures EpollOk(w1)
  {
  }

  lemma ControlOk(b: Backend, w: World, c: nat, ep: nat, op: EpollOp, f: nat)
    requires EpollOk(w) && w.halt == Running
    ensures EpollOk(BeginEpollCtl(b, w, c, ep, op, f).world)
  {
    hide NoEmptyInner;
    var s := BeginEpollCtl(b, w, c, ep, op, f);
    if s.world.epolls != w.epolls {
      var n := w.tables[c].row[ep].underfd;
      var kind := w.tables[c].row[f].fdkind;
      ControlIsPartialMap(w.epolls[n].handled, op, kind, f);
      HandledOk(w, n, Control(w.epolls[n].handled, op, kind, f).0);
    } else if !s.world.halt.EpollRecordMissing? {
      hide Control;
      SameOk(w, s.world);
    }
  }

  lemma HandledOk(w: World, n: nat, handled: Handled)
    requires EpollOk(w) && n in w.epolls && NoEmptyInner(handled)
    ensures EpollOk(w.(epolls := w.epolls[n := w.epolls[n].(handled := handled)]))
  {
    hide NoEmptyInner;
  }

  lemma RecordOk(b: Backend, w: World, c: nat, f: nat, kind: nat, under: nat)
    requires EpollOk(w) && w.halt == Running
    ensures EpollOk(BeginEpollAddUnder(b, w, c, f, kind, under).world)
  {
    hide NoEmptyInner;
  }

  lemma WaitOk(b: Backend, w: World, c: nat, f: nat)
    requires EpollOk(w) && w.halt == Running
    ensures EpollOk(BeginEpollWait(b, w, c, f).world)
  {
    hide NoEmptyInner;
  }

  /** Slots that were there before, with the same keys, stay live; `from` is where a cage's row came from. */
  lemma InheritedOk(w: World, w1: World, n: nat, from: nat)
    requires EpollOk(w) && w.halt == Running
    requires w1.epolls == w.epolls && w1.nextEpoll == w.nextEpoll && w1.misused == w.misused
    requires w1.halt != EpollRecordMissing
    requires forall c, f :: c in w1.tables && f in w1.tables[c].row ==>
      var d := if c == n then from else c;
      d in w.tables && f in w.tables[d].row && KeyOf(w.tables[d].row[f]) == KeyOf(w1.tables[c].row[f])
    ensures EpollOk(w1)
  {
    forall c, f | c in w1.tables && f in w1.tables[c].row && w1.tables[c].row[f].fdkind == FDT_KINDEPOLL
      ensures w1.misused || w1.tables[c].row[f].underfd in w1.epolls
    {
      var d := if c == n then from else c;
      assert KeyOf(w.tables[d].row[f]) == KeyOf(w1.tables[c].row[f]);
    }
    hide NoEmptyInner;
  }

  lemma InitOk(w: World, c: nat)
    requires EpollOk(w) && w.halt == Running
    ensures EpollOk(BeginInit(w, c).world)
  {
    hide EpollOk;
    InheritedOk(w, BeginInit(w, c).world, c, c);
  }

  lemma CloseOk(w: World, c: nat, f: nat)
    requires EpollOk(w) && w.halt == Running
    ensures EpollOk(BeginClose(w, c, f).world)
  {
    hide EpollOk;
    var s := BeginClose(w, c, f);
    if s.outcome == Done {
      assert s.world.tables == w.tables[c := w.tables[c].(row := w.tables[c].row - {f})];
      hide BeginClose;
      InheritedOk(w, s.world, c, c);
    } else {
      SameOk(w, s.world);
    }
  }

  lemma ReleaseOk(b: Backend, w: World, tables: map<nat, Table>, gone: Row)
    requires EpollOk(w) && w.halt == Running
    requires forall c, f :: c in tables && f in tables[c].row ==>
      c in w.tables && f in w.tables[c].row && w.tables[c].row[f] == tables[c].row[f]
    ensures EpollOk(Release(b, w, tables, gone).world)
  {
    hide EpollOk, KeysOf, EntriesOf;
    InheritedOk(w, Release(b, w, tables, gone).world, 0, 0);
  }

  lemma RemoveOk(b: Backend, w: World, c: nat)
    requires EpollOk(w) && w.halt == Running
    ensures EpollOk(BeginRemove(b, w, c).world)
    ensures EpollOk(BeginExec(b, w, c).world)
  {
    hide EpollOk, Release;
    if c in w.tables {
      var t := w.tables[c];
      ReleaseOk(b, w, w.tables - {c}, t.row);
      ReleaseOk(b, w, w.tables[c := t.(row := t.row - Marked(t.row).Keys)], Marked(t.row));
    } else {
      SameOk(w, BeginRemove(b, w, c).world);
      SameOk(w, BeginExec(b, w, c).world);
    }
  }

  lemma SetOk(b: Backend, w: World, c: nat, f: nat, change: Change)
    requires EpollOk(w) && w.halt == Running
    ensures EpollOk(BeginSet(b, w, c, f, change).world)
  {
    hide EpollOk;
    InheritedOk(w, BeginSet(b, w, c, f, change).world, c, c);
  }

  lemma CopyOk(b: Backend, w: World, c: nat, n: nat)
    requires EpollOk(w) && w.halt == Running
    ensures EpollOk(BeginCopyTable(b, w, c, n).world)
  {
    hide EpollOk, EntriesOf;
    var w1 := BeginCopyTable(b, w, c, n).world;
    if c in w.tables && n !in w.tables {
      IncrementAllCounted(w, EntriesOf(b, w.tables[c].row, |w.log|), Key(0, 0));
      InheritedOk(w, w1, n, c);
    } else {
      SameOk(w, w1);
    }
  }

  lemma BeginEpollOk(b: Backend, w: World, call: Call)
    requires EpollOk(w) && w.halt == Running
    ensures EpollOk(Begin(b, w, call).world)
  {
    hide EpollOk, Noting;
    hide BeginInit, BeginGetUnused, BeginGetUnusedFrom, BeginGetSpecific, BeginSet, BeginCopyTable;
    hide BeginRemove, BeginExec, BeginClose, BeginEpollCreate, BeginEpollAddUnder, BeginEpollCtl, BeginEpollWait;
    match call
    case InitCage(c) => InitOk(w, c);
    case Translate(c, f) => SameOk(w, Begin(b, w, call).world);
    case GetUnused(c, e) => UnusedOk(b, w, c, e, 0);
    case GetUnusedFrom(c, e, start) => UnusedOk(b, w, c, e, start);
    case GetSpecific(c, f, e) => SpecificOk(b, w, c, f, e);
    case SetCloexec(c, f, flag) => SetOk(b, w, c, f, Cloexec(flag));
    case SetPerfdinfo(c, f, info) => SetOk(b, w, c, f, Perfdinfo(info));
    case CopyTable(c, n) => CopyOk(b, w, c, n);
    case RemoveCage(c) => RemoveOk(b, w, c);
    case EmptyForExec(c) => RemoveOk(b, w, c);
    case Close(c, f) => CloseOk(w, c, f);
    case EpollCreate(c, cloexec) => CreateOk(b, w, c, cloexec);
    case EpollAddUnder(c, f, kind, under) => RecordOk(b, w, c, f, kind, under);
    case EpollCtl(c, ep, op, f) => ControlOk(b, w, c, ep, op, f);
    case EpollWait(c, f) => WaitOk(b, w, c, f);
  }

  ghost function OkWorld(): World -> bool {
    (w: World) => EpollOk(w)
  }

  lemma DecrementOk(w: World, e: Entry)
    requires EpollOk(w) && w.halt == Running
    ensures EpollOk(Decrement(w, e))
  {
    DecrementFrame(w, e);
    hide EpollOk, Decrement;
    SameOk(w, Decrement(w, e));
  }

  lemma DecrementFrame(w: World, e: Entry)
    requires w.halt == Running
    ensures var w1 := Decrement(w, e);
      w1.tables == w.tables && w1.epolls == w.epolls && w1.nextEpoll == w.nextEpoll && w1.misused == w.misused && w1.halt != EpollRecordMissing
  {
    hide KeyOf, BooksOf;
    var k := KeyOf(e);
    if k in w.counts && w.counts[k] > 0 {
      var w1 := Decrement(w, e);
      assert w1 == w.(counts := w1.counts, inFlight := w1.inFlight, log := w1.log);
    }
  }

  lemma EpollStable(b: Backend)
    ensures Stable(b, OkWorld())
  {
    hide Begin, Decrement, EpollOk;
    forall w: World, call: Call | OkWorld()(w) && w.halt == Running ensures OkWorld()(Begin(b, w, call).world) {
      BeginEpollOk(b, w, call);
    }
    forall w: World, e: Entry | OkWorld()(w) && w.halt == Running ensures OkWorld()(Decrement(w, e)) {
      DecrementOk(w, e);
    }
    forall w: World | OkWorld()(w) ensures OkWorld()(w.(halt := HandlerFailed)) {
      SameOk(w, w.(halt := HandlerFailed));
    }
  }

  /**
   After any calls from empty tables in which callers use the reserved epoll kind only for
   copies of existing descriptors: every epoll slot of every cage names a live record and
   no lookup of a record ever failed.
   */
  lemma EpollRecordsLive(b: Backend, ops: seq<Op>)
    ensures var w := RunAll(b, EMPTY_WORLD, ops);
      && (!w.misused ==> RecordsLive(w.tables, w.epolls) && w.halt != EpollRecordMissing)
      && (forall n :: n in w.epolls ==> n < w.nextEpoll && NoEmptyInner(w.epolls[n].handled))
  {
    EpollStable(b);
    hide Stable;
    RunAllStable(b, OkWorld(), EMPTY_WORLD, ops);
  }

  /** A failed control call changes nothing at all. */
  lemma FailedControlChangesNothing(b: Backend, w: World, c: nat, epfd: nat, op: EpollOp, f: nat)
    requires EpollOk(w) && w.halt == Running && Begin(b, w, EpollCtl(c, epfd, op, f)).outcome.Failed?
    ensures Begin(b, w, EpollCtl(c, epfd, op, f)).world == w
  {
    var row := w.tables[c].row;
    if epfd != f && epfd in row && row[epfd].underfd in w.epolls && f in row {
      ControlIsPartialMap(w.epolls[row[epfd].underfd].handled, op, row[f].fdkind, f);
    }
  }
}
