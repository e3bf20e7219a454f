/**
 The behaviour of the descriptor tables as functions on values: what every API
 call does to the tables, the reference counts and the epoll records, and how
 close handlers, which may call any operation again, are run.

 A call has two parts. `Begin` is the part before any close handler runs: it
 changes the tables and collects the entries to release. `Drain` then releases
 those entries one by one; each release calls a handler, and what that handler
 does is a script of further calls.
 */
module FdSemantics {
  import opened Options
  import opened FdTypes

  /** A cage's table. `high` is `highestneverusedfd`; backends without it leave it 0. */
  datatype Table = Table(row: Row, high: nat)

  /** The record behind an epoll descriptor. */
  datatype EpollInfo = EpollInfo(under: map<nat, nat>, handled: map<nat, map<nat, nat>>)

  /** Why the library panicked, if it did. */
  datatype Halt =
    | Running
    | UnknownCage
    | KnownCage
    | OutOfBounds
    | CountMissing
    | CountUnderflow
    | HandlerFailed
    | EpollRecordMissing
    | DuplicateUnderfd

  /** Tables, counts, and the counted references that are in no slot at the moment. */
  datatype Books = Books(tables: map<nat, Table>, counts: map<Key, nat>, inFlight: multiset<Key>)

  /** What an observer sees: references being counted, and close handlers being called. */
  datatype Event =
    | Installed(key: Key)
    | Fired(entry: Entry, remaining: nat, last: bool, at: Books)

  datatype World = World(
    tables: map<nat, Table>,
    counts: map<Key, nat>,
    inFlight: multiset<Key>,
    nextEpoll: nat,
    epolls: map<nat, EpollInfo>,
    misused: bool,
    log: seq<Event>,
    halt: Halt)

  const EMPTY_WORLD := World(map[], map[], multiset{}, 0, map[], false, [], Running)

  datatype EpollOp = Add(event: nat) | Mod(event: nat) | Del | Unsupported

  datatype Call =
    | InitCage(cage: nat)
    | Translate(cage: nat, fd: nat)
    | GetUnused(cage: nat, entry: Entry)
    | GetUnusedFrom(cage: nat, entry: Entry, start: nat)
    | GetSpecific(cage: nat, fd: nat, entry: Entry)
    | SetCloexec(cage: nat, fd: nat, flag: bool)
    | SetPerfdinfo(cage: nat, fd: nat, info: nat)
    | CopyTable(cage: nat, newCage: nat)
    | RemoveCage(cage: nat)
    | EmptyForExec(cage: nat)
    | Close(cage: nat, fd: nat)
    | EpollCreate(cage: nat, cloexec: bool)
    | EpollAddUnder(cage: nat, fd: nat, kind: nat, under: nat)
    | EpollCtl(cage: nat, epfd: nat, ctl: EpollOp, fd: nat)
    | EpollWait(cage: nat, epfd: nat)

  /** A call together with what the close handlers it triggers will do, in order. */
  datatype Op = Op(call: Call, reactions: seq<Reaction>)

  /** What one handler invocation does: calls back in, then returns `errno` (0 is Ok). */
  datatype Reaction = Reaction(ops: seq<Op>, errno: int)

  datatype Outcome =
    | Done
    | NewFd(fd: nat)
    | Found(entry: Entry)
    | WaitData(handled: map<nat, map<nat, nat>>)
    | Failed(errno: Errno)
    | HandlerError(code: int)
    | Panicked

  /**
   The storage in use. `iter` is the order in which a hash map yields the keys of a
   row; it may depend on the row and on the moment (the number of events so far).
   */
  datatype Backend =
    | HashMaps(iter: (Row, nat) -> seq<nat>)
    | ArrayRows
    | HighWater(iter: (Row, nat) -> seq<nat>)

  /** What a failing handler does to the call that triggered it. */
  datatype OnError = Return | Panic | Ignore

  /** The state after the first part of a call, and what is left to do. */
  datatype Start = Start(world: World, todo: seq<Entry>, outcome: Outcome, onError: OnError)

  function BooksOf(w: World): Books {
    Books(w.tables, w.counts, w.inFlight)
  }

  function Stop(w: World, why: Halt): Start {
    Start(w.(halt := why), [], Panicked, Panic)
  }

  function Plain(w: World, o: Outcome): Start {
    Start(w, [], o, Panic)
  }

  // ---- scanning and enumerating a row ----

  /** The lowest vacant descriptor at or above `start` (section 2.14 of POSIX.1-2017 XSH). */
  function LowestVacant(row: Row, start: nat): (r: Option<nat>)
    ensures r.Some? ==> start <= r.value < FD_PER_PROCESS_MAX && r.value !in row
    ensures r.Some? ==> forall f :: start <= f < r.value ==> f in row
    ensures r.None? ==> forall f :: start <= f < FD_PER_PROCESS_MAX ==> f in row
    decreases FD_PER_PROCESS_MAX - start
  {
    if start >= FD_PER_PROCESS_MAX then None
    else if start !in row then Some(start)
    else LowestVacant(row, start + 1)
  }

  /** The occupied slots of a row from `start` upwards, in ascending order. */
  function Ascending(row: Row, start: nat): (s: seq<nat>)
    ensures forall f :: f in s <==> f in row && start <= f < FD_PER_PROCESS_MAX
    ensures forall i, j :: 0 <= i < j < |s| ==> s[i] < s[j]
    decreases FD_PER_PROCESS_MAX - start
  {
    if start >= FD_PER_PROCESS_MAX then []
    else
      var rest := Ascending(row, start + 1);
      assert forall i :: 0 <= i < |rest| ==> rest[i] in rest;
      if start in row then [start] + rest else rest
  }

  function Enumerate(b: Backend, row: Row, moment: nat): seq<nat> {
    match b
    case ArrayRows => Ascending(row, 0)
    case HashMaps(iter) => iter(row, moment)
    case HighWater(iter) => iter(row, moment)
  }

  /** `s` lists every key of `row` once. */
  ghost predicate Lists(s: seq<nat>, row: Row) {
    (forall f :: f in s <==> f in row) && (forall i, j :: 0 <= i < j < |s| ==> s[i] != s[j])
  }

  /** The hash maps iterate over their keys, each once. */
  ghost predicate Lawful(b: Backend) {
    !b.ArrayRows? ==> forall row: Row, m: nat :: Lists(b.iter(row, m), row)
  }

  /** The entries at the slots of `order` (slots not in the row are skipped). */
  function EntriesAt(row: Row, order: seq<nat>): seq<Entry> {
    if order == [] then []
    else (if order[0] in row then [row[order[0]]] else []) + EntriesAt(row, order[1..])
  }

  /** All entries of a row in the backend's order. */
  function EntriesOf(b: Backend, row: Row, moment: nat): seq<Entry> {
    EntriesAt(row, Enumerate(b, row, moment))
  }

  function KeysOf(es: seq<Entry>): multiset<Key> {
    if es == [] then multiset{} else multiset{KeyOf(es[0])} + KeysOf(es[1..])
  }

  /** The part of a row marked close-on-exec. */
  function Marked(row: Row): Row {
    map f | f in row && row[f].shouldCloexec :: row[f]
  }

  // ---- reference counts ----

  function Increment(w: World, e: Entry): World {
    var k := KeyOf(e);
    w.(counts := w.counts[k := if k in w.counts then w.counts[k] + 1 else 1],
       log := w.log + [Installed(k)])
  }

  function IncrementAll(w: World, es: seq<Entry>): World
    decreases es
  {
    if es == [] then w else IncrementAll(Increment(w, es[0]), es[1..])
  }

  /** `_decrement_fdcount` up to the call of the handler. */
  function Decrement(w: World, e: Entry): World {
    var k := KeyOf(e);
    if k !in w.counts then w.(halt := CountMissing)
    else if w.counts[k] == 0 then w.(halt := CountUnderflow)
    else
      var n := w.counts[k] - 1;
      var w1 := w.(counts := if n > 0 then w.counts[k := n] else w.counts - {k},
                   inFlight := w.inFlight - multiset{k});
      w1.(log := w1.log + [Fired(e, n, n == 0, BooksOf(w1))])
  }

  // ---- the first part of each call ----

  function WithRow(w: World, c: nat, row: Row): World
    requires c in w.tables
  {
    w.(tables := w.tables[c := w.tables[c].(row := row)])
  }

  /** The entry is of the reserved epoll kind but no slot holds a descriptor like it. */
  predicate Foreign(w: World, e: Entry) {
    && e.fdkind == FDT_KINDEPOLL
    && !exists c, f :: c in w.tables && f in w.tables[c].row && KeyOf(w.tables[c].row[f]) == KeyOf(e)
  }

  function Noting(w: World, e: Entry): World {
    w.(misused := w.misused || Foreign(w, e))
  }

  /** Put `e` into the vacant slot `f`; `high` is raised past `f` when `bump` asks for it. */
  function Install(w: World, c: nat, f: nat, e: Entry, bump: bool): World
    requires c in w.tables
  {
    var t := w.tables[c];
    var high := if bump && f >= t.high then f + 1 else t.high;
    Increment(w.(tables := w.tables[c := Table(t.row[f := e], high)]), e)
  }

  function BeginInit(w: World, c: nat): Start {
    if c in w.tables then Stop(w, KnownCage)
    else Plain(w.(tables := w.tables[c := Table(map[], 0)]), Done)
  }

  function BeginTranslate(w: World, c: nat, f: nat): Start {
    if c !in w.tables then Stop(w, UnknownCage)
    else if f >= FD_PER_PROCESS_MAX || f !in w.tables[c].row then Plain(w, Failed(EBADFD))
    else Plain(w, Found(w.tables[c].row[f]))
  }

  function BeginGetUnused(b: Backend, w: World, c: nat, e: Entry): Start {
    if c !in w.tables then Stop(w, UnknownCage)
    else
      var t := w.tables[c];
      if b.HighWater? && t.high < FD_PER_PROCESS_MAX then
        Plain(Install(w, c, t.high, e, true), NewFd(t.high))
      else
        match LowestVacant(t.row, 0)
        case None => Plain(w, Failed(EMFILE))
        case Some(f) => Plain(Install(w, c, f, e, false), NewFd(f))
  }

  function BeginGetUnusedFrom(b: Backend, w: World, c: nat, e: Entry, start: nat): Start {
    if c !in w.tables then Stop(w, UnknownCage)
    else
      match LowestVacant(w.tables[c].row, start)
      case None => Plain(w, Failed(EMFILE))
      case Some(f) => Plain(Install(w, c, f, e, b.HighWater?), NewFd(f))
  }

  /** The count rises before the slot changes hands, so the new entry is in flight first. */
  function BeginGetSpecific(b: Backend, w: World, c: nat, f: nat, e: Entry): Start {
    if c !in w.tables then Stop(w, UnknownCage)
    else if f > FD_PER_PROCESS_MAX then Plain(w, Failed(EBADF))
    else
      var w1 := Increment(w, e).(inFlight := w.inFlight + multiset{KeyOf(e)});
      if b.ArrayRows? && f >= FD_PER_PROCESS_MAX then Stop(w1, OutOfBounds)
      else
        var t := w.tables[c];
        var high := if b.HighWater? && f >= t.high then f + 1 else t.high;
        var onError := match b case HashMaps(_) => Panic case ArrayRows => Return case HighWater(_) => Ignore;
        var w2 := w1.(tables := w.tables[c := Table(t.row[f := e], high)], inFlight := w.inFlight);
        if f !in t.row then Start(w2, [], Done, onError)
        else Start(w2.(inFlight := w.inFlight + multiset{KeyOf(t.row[f])}), [t.row[f]], Done, onError)
  }

  /** A setter's new value for one field of an entry. */
  datatype Change = Cloexec(flag: bool) | Perfdinfo(info: nat)

  function Apply(change: Change, e: Entry): Entry {
    match change
    case Cloexec(flag) => e.(shouldCloexec := flag)
    case Perfdinfo(info) => e.(perfdinfo := info)
  }

  function BeginSet(b: Backend, w: World, c: nat, f: nat, change: Change): Start {
    if c !in w.tables then Stop(w, UnknownCage)
    else if b.ArrayRows? && f >= FD_PER_PROCESS_MAX then Stop(w, OutOfBounds)
    else if f !in w.tables[c].row then Plain(w, Failed(EBADFD))
    else Plain(WithRow(w, c, w.tables[c].row[f := Apply(change, w.tables[c].row[f])]), Done)
  }

  function BeginCopyTable(b: Backend, w: World, c: nat, n: nat): Start {
    if c !in w.tables then Stop(w, UnknownCage)
    else if n in w.tables then Stop(w, KnownCage)
    else
      var w1 := IncrementAll(w, EntriesOf(b, w.tables[c].row, |w.log|));
      Plain(w1.(tables := w.tables[n := w.tables[c]]), Done)
  }

  /** Take a row's entries out of the tables; they stay counted until they are drained. */
  function Release(b: Backend, w: World, tables: map<nat, Table>, gone: Row): Start {
    var todo := EntriesOf(b, gone, |w.log|);
    Start(w.(tables := tables, inFlight := w.inFlight + KeysOf(todo)), todo, Done, Panic)
  }

  function BeginRemove(b: Backend, w: World, c: nat): Start {
    if c !in w.tables then Plain(w, Done)
    else Release(b, w, w.tables - {c}, w.tables[c].row)
  }

  function BeginExec(b: Backend, w: World, c: nat): Start {
    if c !in w.tables then Stop(w, UnknownCage)
    else
      var t := w.tables[c];
      Release(b, w, w.tables[c := t.(row := t.row - Marked(t.row).Keys)], Marked(t.row))
  }

  function BeginClose(w: World, c: nat, f: nat): Start {
    if f >= FD_PER_PROCESS_MAX then Plain(w, Failed(EBADFD))
    else if c !in w.tables then Stop(w, UnknownCage)
    else if f !in w.tables[c].row then Plain(w, Failed(EBADFD))
    else
      var e := w.tables[c].row[f];
      Start(WithRow(w, c, w.tables[c].row - {f}).(inFlight := w.inFlight + multiset{KeyOf(e)}), [e], Done, Return)
  }

  // ---- epoll ----

  /** `_get_epoll_entrynum_or_error`: the record number behind an epoll descriptor. */
  function EpollNumber(b: Backend, w: World, c: nat, f: nat): Result
    requires c in w.tables
  {
    if b.ArrayRows? && f >= FD_PER_PROCESS_MAX then Bad(OutOfBounds)
    else if f !in w.tables[c].row then Err(EBADF)
    else if w.tables[c].row[f].fdkind != FDT_KINDEPOLL then Err(EINVAL)
    else Number(w.tables[c].row[f].underfd)
  }

  datatype Result = Number(n: nat) | Err(errno: Errno) | Bad(halt: Halt)

  function BeginEpollCreate(b: Backend, w: World, c: nat, cloexec: bool): Start {
    var s := BeginGetUnused(b, w, c, Entry(FDT_KINDEPOLL, w.nextEpoll, cloexec, 0));
    if !s.outcome.NewFd? then s
    else
      var info := if w.nextEpoll in w.epolls then w.epolls[w.nextEpoll] else EpollInfo(map[], map[]);
      s.(world := s.world.(nextEpoll := w.nextEpoll + 1, epolls := w.epolls[w.nextEpoll := info]))
  }

  function BeginEpollAddUnder(b: Backend, w: World, c: nat, f: nat, kind: nat, under: nat): Start {
    if c !in w.tables then Stop(w, UnknownCage)
    else
      match EpollNumber(b, w, c, f)
      case Bad(h) => Stop(w, h)
      case Err(e) => Plain(w, Failed(e))
      case Number(n) =>
        if n !in w.epolls then Stop(w, EpollRecordMissing)
        else if kind in w.epolls[n].under then Stop(w, DuplicateUnderfd)
        else Plain(w.(epolls := w.epolls[n := w.epolls[n].(under := w.epolls[n].under[kind := under])]), Done)
  }

  /** The effect of one control operation on the user-handled map of an epoll record. */
  function Control(handled: map<nat, map<nat, nat>>, op: EpollOp, kind: nat, fd: nat): (map<nat, map<nat, nat>>, Outcome)
  {
    match op
    case Add(ev) =>
      var inner: map<nat, nat> := if kind in handled then handled[kind] else map[];
      if fd in inner then (handled[kind := inner], Failed(EEXIST))
      else (handled[kind := inner[fd := ev]], Done)
    case Mod(ev) =>
      if kind !in handled || fd !in handled[kind] then (handled, Failed(ENOENT))
      else
        var inner: map<nat, nat> := handled[kind];
        (handled[kind := inner[fd := ev]], Done)
    case Del =>
      if kind !in handled || fd !in handled[kind] then (handled, Failed(ENOENT))
      else
        var inner: map<nat, nat> := handled[kind] - {fd};
        (if inner == map[] then handled - {kind} else handled[kind := inner], Done)
    case Unsupported => (handled, Failed(EINVAL))
  }

  function BeginEpollCtl(b: Backend, w: World, c: nat, epfd: nat, op: EpollOp, fd: nat): Start {
    if c !in w.tables then Stop(w, UnknownCage)
    else if epfd == fd then Plain(w, Failed(EINVAL))
    else
      match EpollNumber(b, w, c, epfd)
      case Bad(h) => Stop(w, h)
      case Err(e) => Plain(w, Failed(e))
      case Number(n) =>
        var row := w.tables[c].row;
        if b.ArrayRows? && fd >= FD_PER_PROCESS_MAX then Stop(w, OutOfBounds)
        else if fd !in row then Plain(w, Failed(EBADF))
        else if row[fd].fdkind == FDT_KINDEPOLL then Plain(w, Failed(ENOSYS))
        else if n !in w.epolls then Stop(w, EpollRecordMissing)
        else
          var (handled, o) := Control(w.epolls[n].handled, op, row[fd].fdkind, fd);
          Plain(w.(epolls := w.epolls[n := w.epolls[n].(handled := handled)]), o)
  }

  function BeginEpollWait(b: Backend, w: World, c: nat, epfd: nat): Start {
    if c !in w.tables then Stop(w, UnknownCage)
    else
      match EpollNumber(b, w, c, epfd)
      case Bad(h) => Stop(w, h)
      case Err(e) => Plain(w, Failed(e))
      case Number(n) =>
        if n !in w.epolls then Stop(w, EpollRecordMissing)
        else Plain(w, WaitData(w.epolls[n].handled))
  }

  // ---- whole calls ----

  function Begin(b: Backend, w: World, call: Call): Start {
    match call
    case InitCage(c) => BeginInit(w, c)
    case Translate(c, f) => BeginTranslate(w, c, f)
    case GetUnused(c, e) => BeginGetUnused(b, Noting(w, e), c, e)
    case GetUnusedFrom(c, e, start) => BeginGetUnusedFrom(b, Noting(w, e), c, e, start)
    case GetSpecific(c, f, e) => BeginGetSpecific(b, Noting(w, e), c, f, e)
    case SetCloexec(c, f, flag) => BeginSet(b, w, c, f, Cloexec(flag))
    case SetPerfdinfo(c, f, info) => BeginSet(b, w, c, f, Perfdinfo(info))
    case CopyTable(c, n) => BeginCopyTable(b, w, c, n)
    case RemoveCage(c) => BeginRemove(b, w, c)
    case EmptyForExec(c) => BeginExec(b, w, c)
    case Close(c, f) => BeginClose(w, c, f)
    case EpollCreate(c, cloexec) => BeginEpollCreate(b, w, c, cloexec)
    case EpollAddUnder(c, f, kind, under) => BeginEpollAddUnder(b, w, c, f, kind, under)
    case EpollCtl(c, epfd, op, f) => BeginEpollCtl(b, w, c, epfd, op, f)
    case EpollWait(c, epfd) => BeginEpollWait(b, w, c, epfd)
  }

  /** Release `todo` in order. The i-th release calls a handler that behaves as `reactions[i]`. */
  function Drain(b: Backend, w: World, todo: seq<Entry>, reactions: seq<Reaction>, onError: OnError, ok: Outcome)
    : (World, Outcome)
    decreases reactions, |todo|
  {
    if w.halt != Running then (w, Panicked)
    else if todo == [] then (w, ok)
    else if reactions == [] then Drain(b, Decrement(w, todo[0]), todo[1..], [], onError, ok)
    else
      var w1 := React(b, Decrement(w, todo[0]), reactions[0]);
      var errno := reactions[0].errno;
      if w1.halt != Running then (w1, Panicked)
      else if errno == 0 || onError == Ignore then Drain(b, w1, todo[1..], reactions[1..], onError, ok)
      else if onError == Return then (w1, HandlerError(errno))
      else (w1.(halt := HandlerFailed), Panicked)
  }

  /** A handler at work. */
  function React(b: Backend, w: World, r: Reaction): World
    decreases r, 0
  {
    RunAll(b, w, r.ops)
  }

  function RunAll(b: Backend, w: World, ops: seq<Op>): World
    decreases ops, 0
  {
    if ops == [] then w else RunAll(b, Run(b, w, ops[0]).0, ops[1..])
  }

  /** One API call, handlers included. After a panic nothing happens any more. */
  function Run(b: Backend, w: World, op: Op): (World, Outcome)
    decreases op, 0
  {
    if w.halt != Running then (w, Panicked)
    else
      var s := Begin(b, w, op.call);
      Drain(b, s.world, s.todo, op.reactions, s.onError, s.outcome)
  }
}
