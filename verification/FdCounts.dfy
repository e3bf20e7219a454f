/**
 The reference count is exact. In every state a run can reach, and at every moment a
 close handler is called, the count of a (fdkind, underfd) pair equals the number of
 slots holding it over all cages plus the counted references that are in no slot.
 */
module FdCounts {
  import opened FdTypes
  import opened FdSemantics
  import opened FdSteps

  // ---- what the count should be ----

  ghost function FdsWith(row: Row, k: Key): set<nat> {
    set f | f in row && KeyOf(row[f]) == k
  }

  ghost function SlotsWith(tables: map<nat, Table>, k: Key): set<(nat, nat)> {
    set c, f | c in tables && f in tables[c].row && KeyOf(tables[c].row[f]) == k :: (c, f)
  }

  /** Slots over all cages, plus references between slots. */
  ghost function Refs(bk: Books, k: Key): nat {
    |SlotsWith(bk.tables, k)| + bk.inFlight[k]
  }

  function CountOf(counts: map<Key, nat>, k: Key): nat {
    if k in counts then counts[k] else 0
  }

  /** The count of `k` is exact, and no zero is stored. */
  ghost predicate BalancedAt(bk: Books, k: Key) {
    CountOf(bk.counts, k) == Refs(bk, k) && (k in bk.counts ==> bk.counts[k] > 0)
  }

  ghost predicate Balanced(bk: Books) {
    forall k :: BalancedAt(bk, k)
  }

  // ---- what handlers should be told ----

  function Installs(log: seq<Event>, k: Key): nat {
    if log == [] then 0
    else Installs(log[..|log| - 1], k) + (if log[|log| - 1] == Installed(k) then 1 else 0)
  }

  predicate FiredFor(ev: Event, k: Key) {
    ev.Fired? && KeyOf(ev.entry) == k
  }

  function Fires(log: seq<Event>, k: Key): nat {
    if log == [] then 0
    else Fires(log[..|log| - 1], k) + (if FiredFor(log[|log| - 1], k) then 1 else 0)
  }

  /** A handler call made in a balanced state, with the exact remaining count. */
  ghost predicate Exact(ev: Event) {
    ev.Fired? ==>
      && Balanced(ev.at)
      && ev.remaining == Refs(ev.at, KeyOf(ev.entry))
      && (ev.last <==> Refs(ev.at, KeyOf(ev.entry)) == 0)
  }

  ghost predicate AllExact(log: seq<Event>) {
    forall i :: 0 <= i < |log| ==> Exact(log[i])
  }

  /** References counted so far and not yet handed to a handler are what the count says. */
  ghost predicate LedgerAt(w: World, k: Key) {
    Installs(w.log, k) == Fires(w.log, k) + CountOf(w.counts, k)
  }

  ghost predicate SoundAt(w: World, k: Key) {
    BalancedAt(BooksOf(w), k) && LedgerAt(w, k)
  }

  ghost predicate Bounded(tables: map<nat, Table>) {
    forall c, f :: c in tables && f in tables[c].row ==> f < FD_PER_PROCESS_MAX
  }

  /** In the high-water backend no live descriptor is at or above the mark. */
  ghost predicate BelowMark(tables: map<nat, Table>) {
    forall c, f :: c in tables && f in tables[c].row ==> f < tables[c].high
  }

  ghost predicate Sound(b: Backend, w: World) {
    && (forall k :: SoundAt(w, k))
    && AllExact(w.log)
    && (b.ArrayRows? ==> Bounded(w.tables))
    && (b.HighWater? ==> BelowMark(w.tables))
    && w.halt != CountMissing && w.halt != CountUnderflow
  }

  // ---- counting slots ----

  ghost function Pairs(c: nat, s: set<nat>): set<(nat, nat)> {
    set f | f in s :: (c, f)
  }

  lemma {:induction false} PairsSize(c: nat, s: set<nat>)
    ensures |Pairs(c, s)| == |s|
  {
    if s != {} {
      var x :| x in s;
      PairsSize(c, s - {x});
      assert Pairs(c, s) == Pairs(c, s - {x}) + {(c, x)};
    } else {
      assert Pairs(c, s) == {};
    }
  }

  /** The slots holding `k` are those of one cage and those of the others. */
  lemma CageSplit(tables: map<nat, Table>, c: nat, t: Table, k: Key)
    ensures |SlotsWith(tables[c := t], k)| == |SlotsWith(tables - {c}, k)| + |FdsWith(t.row, k)|
  {
    var rest, mine := SlotsWith(tables - {c}, k), Pairs(c, FdsWith(t.row, k));
    PairsSize(c, FdsWith(t.row, k));
    forall p: (nat, nat) ensures p in SlotsWith(tables[c := t], k) <==> p in rest + mine {
      SlotSide(tables, c, t, k, p);
    }
    SlotsAside(tables, c, t, k);
    hide SlotsWith, Pairs, FdsWith;
    assert SlotsWith(tables[c := t], k) == rest + mine;
  }

  lemma SlotSide(tables: map<nat, Table>, c: nat, t: Table, k: Key, p: (nat, nat))
    ensures p in SlotsWith(tables[c := t], k) <==> p in SlotsWith(tables - {c}, k) || p in Pairs(c, FdsWith(t.row, k))
  {
  }

  lemma SlotsAside(tables: map<nat, Table>, c: nat, t: Table, k: Key)
    ensures SlotsWith(tables - {c}, k) !! Pairs(c, FdsWith(t.row, k))
  {
  }

  lemma CageSplitAt(tables: map<nat, Table>, c: nat, k: Key)
    requires c in tables
    ensures |SlotsWith(tables, k)| == |SlotsWith(tables - {c}, k)| + |FdsWith(tables[c].row, k)|
  {
    assert tables[c := tables[c]] == tables;
    CageSplit(tables, c, tables[c], k);
  }

  function One(yes: bool): nat {
    if yes then 1 else 0
  }

  lemma RowInsert(row: Row, f: nat, e: Entry, k: Key)
    ensures |FdsWith(row[f := e], k)| + One(f in row && KeyOf(row[f]) == k)
         == |FdsWith(row, k)| + One(KeyOf(e) == k)
  {
    var rest := FdsWith(row, k) - {f};
    assert FdsWith(row[f := e], k) == if KeyOf(e) == k then rest + {f} else rest;
    assert FdsWith(row, k) == if f in row && KeyOf(row[f]) == k then rest + {f} else rest;
  }

  /** Changing one slot of one cage moves the slot count by what left and what came. */
  lemma SlotChange(tables: map<nat, Table>, c: nat, f: nat, e: Entry, high: nat, k: Key)
    requires c in tables
    ensures
      var row := tables[c].row;
      |SlotsWith(tables[c := Table(row[f := e], high)], k)| + One(f in row && KeyOf(row[f]) == k)
      == |SlotsWith(tables, k)| + One(KeyOf(e) == k)
  {
    CageSplitAt(tables, c, k);
    CageSplit(tables, c, Table(tables[c].row[f := e], high), k);
    RowInsert(tables[c].row, f, e, k);
  }

  lemma SplitRow(row: Row, gone: Row, k: Key)
    requires forall f :: f in gone ==> f in row && row[f] == gone[f]
    ensures |FdsWith(row, k)| == |FdsWith(row - gone.Keys, k)| + |FdsWith(gone, k)|
  {
    assert FdsWith(row, k) == FdsWith(row - gone.Keys, k) + FdsWith(gone, k);
    assert FdsWith(row - gone.Keys, k) !! FdsWith(gone, k);
  }

  ghost function Among(s: set<nat>, order: seq<nat>): set<nat> {
    set f | f in s && f in order
  }

  lemma AmongStep(held: set<nat>, x: nat, rest: seq<nat>)
    requires x !in rest
    ensures |Among(held, [x] + rest)| == |Among(held, rest)| + One(x in held)
  {
    assert Among(held, [x] + rest) == if x in held then Among(held, rest) + {x} else Among(held, rest);
  }

  lemma KeysOfNone(es: seq<Entry>)
    requires es == []
    ensures KeysOf(es) == multiset{}
  {
  }

  lemma KeysCons(e: Entry, es: seq<Entry>)
    ensures KeysOf([e] + es) == multiset{KeyOf(e)} + KeysOf(es)
  {
    assert ([e] + es)[1..] == es;
  }

  /** Listing a row's slots once each lists each key as often as the row holds it. */
  lemma {:induction false} ListedKeys(row: Row, order: seq<nat>, k: Key)
    requires forall i, j :: 0 <= i < j < |order| ==> order[i] != order[j]
    ensures KeysOf(EntriesAt(row, order))[k] == |Among(FdsWith(row, k), order)|
    decreases |order|
  {
    if order == [] {
      assert Among(FdsWith(row, k), order) == {};
    } else {
      var x, rest := order[0], order[1..];
      assert order == [x] + rest && x !in rest;
      ListedKeys(row, rest, k);
      AmongStep(FdsWith(row, k), x, rest);
      if x in row {
        assert EntriesAt(row, order) == [row[x]] + EntriesAt(row, rest);
        KeysCons(row[x], EntriesAt(row, rest));
      } else {
        assert EntriesAt(row, order) == EntriesAt(row, rest);
      }
      hide KeysOf, Among, EntriesAt;
    }
  }

  lemma EntriesKeys(b: Backend, row: Row, m: nat, k: Key)
    requires Lawful(b)
    requires b.ArrayRows? ==> forall f :: f in row ==> f < FD_PER_PROCESS_MAX
    ensures KeysOf(EntriesOf(b, row, m))[k] == |FdsWith(row, k)|
  {
    var order := Enumerate(b, row, m);
    assert Lists(order, row);
    ListedKeys(row, order, k);
    assert Among(FdsWith(row, k), order) == FdsWith(row, k);
  }

  // ---- counting references ----

  lemma LogStep(log: seq<Event>, ev: Event, k: Key)
    ensures Installs(log + [ev], k) == Installs(log, k) + One(ev == Installed(k))
    ensures Fires(log + [ev], k) == Fires(log, k) + One(FiredFor(ev, k))
  {
    assert (log + [ev])[..|log|] == log;
  }

  /** For `k`, `w1` is `w` with `n` more references counted and nothing else moved. */
  ghost predicate Counted(w: World, w1: World, k: Key, n: nat) {
    && CountOf(w1.counts, k) == CountOf(w.counts, k) + n
    && (LedgerAt(w, k) ==> LedgerAt(w1, k))
    && ((k in w.counts ==> w.counts[k] > 0) ==> (k in w1.counts ==> w1.counts[k] > 0))
    && (AllExact(w.log) ==> AllExact(w1.log))
    && w.log <= w1.log
    && w1 == w.(counts := w1.counts, log := w1.log)
  }

  lemma IncrementCounted(w: World, e: Entry, k: Key)
    ensures Counted(w, Increment(w, e), k, One(KeyOf(e) == k))
  {
    LogStep(w.log, Installed(KeyOf(e)), k);
  }

  lemma {:induction false} IncrementAllCounted(w: World, es: seq<Entry>, k: Key)
    ensures Counted(w, IncrementAll(w, es), k, KeysOf(es)[k])
    decreases |es|
  {
    if es != [] {
      IncrementCounted(w, es[0], k);
      IncrementAllCounted(Increment(w, es[0]), es[1..], k);
    }
  }

  // ---- the first part of every call keeps the books balanced ----

  lemma InstallAt(w: World, c: nat, f: nat, e: Entry, high: nat, k: Key)
    requires SoundAt(w, k) && c in w.tables && f !in w.tables[c].row
    ensures SoundAt(Increment(w.(tables := w.tables[c := Table(w.tables[c].row[f := e], high)]), e), k)
  {
    IncrementCounted(w.(tables := w.tables[c := Table(w.tables[c].row[f := e], high)]), e, k);
    SlotChange(w.tables, c, f, e, high, k);
    hide SlotsWith, Increment, Installs, Fires;
  }

  lemma InstallSound(b: Backend, w: World, c: nat, f: nat, e: Entry, bump: bool)
    requires Sound(b, w) && c in w.tables && f !in w.tables[c].row
    requires b.ArrayRows? ==> f < FD_PER_PROCESS_MAX
    requires b.HighWater? ==> bump || f < w.tables[c].high
    ensures Sound(b, Install(w, c, f, e, bump))
  {
    hide SoundAt, Exact;
    var t := w.tables[c];
    var high := if bump && f >= t.high then f + 1 else t.high;
    var w1 := Install(w, c, f, e, bump);
    forall k ensures SoundAt(w1, k) {
      assert SoundAt(w, k);
      InstallAt(w, c, f, e, high, k);
    }
    assert AllExact(w1.log) by { assert Exact(Installed(KeyOf(e))) by { ExactInstalled(KeyOf(e)); } }
  }

  lemma ExactInstalled(k: Key)
    ensures Exact(Installed(k))
  {
  }

  lemma GetSpecificAt(b: Backend, w: World, c: nat, f: nat, e: Entry, k: Key)
    requires SoundAt(w, k) && c in w.tables && f <= FD_PER_PROCESS_MAX
    ensures SoundAt(BeginGetSpecific(b, w, c, f, e).world, k)
  {
    var w1 := BeginGetSpecific(b, w, c, f, e).world;
    IncrementCounted(w, e, k);
    var row := w.tables[c].row;
    hide SoundAt, Increment, Counted;
    if b.ArrayRows? && f >= FD_PER_PROCESS_MAX {
      HeldAt(w, Increment(w, e), w1, e, k);
    } else {
      ghost var out := if f in row then multiset{KeyOf(row[f])} else multiset{};
      assert w1.inFlight == w.inFlight + out;
      ReplacedAt(w, Increment(w, e), w1, c, f, e, w1.tables[c].high, k);
    }
  }

  /** A reference that was counted and is held by the call alone. */
  lemma HeldAt(w: World, w1: World, w2: World, e: Entry, k: Key)
    requires SoundAt(w, k) && Counted(w, w1, k, One(KeyOf(e) == k))
    requires w2.tables == w.tables && w2.counts == w1.counts && w2.log == w1.log
    requires w2.inFlight == w.inFlight + multiset{KeyOf(e)}
    ensures SoundAt(w2, k)
  {
    hide SlotsWith, Installs, Fires;
  }

  /** A reference that was counted and stored, and the one it replaced. */
  lemma ReplacedAt(w: World, w1: World, w2: World, c: nat, f: nat, e: Entry, high: nat, k: Key)
    requires SoundAt(w, k) && Counted(w, w1, k, One(KeyOf(e) == k)) && c in w.tables
    requires w2.tables == w.tables[c := Table(w.tables[c].row[f := e], high)]
    requires w2.counts == w1.counts && w2.log == w1.log
    requires var row := w.tables[c].row;
      w2.inFlight == w.inFlight + (if f in row then multiset{KeyOf(row[f])} else multiset{})
    ensures SoundAt(w2, k)
  {
    SlotChange(w.tables, c, f, e, high, k);
    hide SlotsWith, Installs, Fires;
  }

  /** Nothing the invariant speaks of changed. */
  lemma SameBooks(b: Backend, w: World, w1: World)
    requires Sound(b, w)
    requires BooksOf(w1) == BooksOf(w) && w1.log == w.log
    requires w1.halt != CountMissing && w1.halt != CountUnderflow
    ensures Sound(b, w1)
  {
    forall k ensures SoundAt(w1, k) { assert SoundAt(w, k); }
  }

  /** The books stay balanced, and exactly the entries still to be released were put in flight. */
  ghost predicate GoodStart(b: Backend, w: World, s: Start) {
    && Sound(b, s.world)
    && (s.world.halt == Running ==> s.world.inFlight == w.inFlight + KeysOf(s.todo))
    && (s.onError == Return ==> |s.todo| <= 1)
    && w.log <= s.world.log
  }

  /** A first part that moved no reference. */
  lemma IdleStart(b: Backend, w: World, s: Start)
    requires Sound(b, w)
    requires BooksOf(s.world) == BooksOf(w) && s.world.log == w.log && s.todo == []
    requires s.world.halt != CountMissing && s.world.halt != CountUnderflow
    ensures GoodStart(b, w, s)
  {
    SameBooks(b, w, s.world);
    hide Sound;
  }

  lemma KeysOfOne(e: Entry)
    ensures KeysOf([e]) == multiset{KeyOf(e)}
  {
    assert KeysOf([e][1..]) == multiset{};
  }

  lemma InitGood(b: Backend, w: World, c: nat)
    requires Sound(b, w) && w.halt == Running
    ensures GoodStart(b, w, BeginInit(w, c))
  {
    var s := BeginInit(w, c);
    if c in w.tables {
      IdleStart(b, w, s);
    } else {
      assert w.tables - {c} == w.tables;
      forall k ensures SoundAt(s.world, k) {
        assert SoundAt(w, k);
        CageSplit(w.tables, c, Table(map[], 0), k);
      }
    }
  }

  lemma GetUnusedGood(b: Backend, w: World, c: nat, e: Entry)
    requires Sound(b, w) && w.halt == Running
    ensures GoodStart(b, w, BeginGetUnused(b, w, c, e))
  {
    var s := BeginGetUnused(b, w, c, e);
    if s.outcome.NewFd? {
      InstallSound(b, w, c, s.outcome.fd, e, b.HighWater? && w.tables[c].high < FD_PER_PROCESS_MAX);
    } else {
      IdleStart(b, w, s);
    }
  }

  lemma GetUnusedFromGood(b: Backend, w: World, c: nat, e: Entry, start: nat)
    requires Sound(b, w) && w.halt == Running
    ensures GoodStart(b, w, BeginGetUnusedFrom(b, w, c, e, start))
  {
    var s := BeginGetUnusedFrom(b, w, c, e, start);
    if s.outcome.NewFd? {
      InstallSound(b, w, c, s.outcome.fd, e, b.HighWater?);
    } else {
      IdleStart(b, w, s);
    }
  }

  lemma GetSpecificGood(b: Backend, w: World, c: nat, f: nat, e: Entry)
    requires Sound(b, w) && w.halt == Running
    ensures GoodStart(b, w, BeginGetSpecific(b, w, c, f, e))
  {
    var s := BeginGetSpecific(b, w, c, f, e);
    if c in w.tables && f <= FD_PER_PROCESS_MAX {
      if f in w.tables[c].row {
        KeysOfOne(w.tables[c].row[f]);
      }
      ExactInstalled(KeyOf(e));
      hide SoundAt, Exact, KeysOf;
      forall k ensures SoundAt(s.world, k) {
        assert SoundAt(w, k);
        GetSpecificAt(b, w, c, f, e, k);
      }
    } else {
      IdleStart(b, w, s);
    }
  }

  lemma SetGood(b: Backend, w: World, c: nat, f: nat, change: Change)
    requires Sound(b, w) && w.halt == Running
    ensures GoodStart(b, w, BeginSet(b, w, c, f, change))
  {
    var s := BeginSet(b, w, c, f, change);
    if s.outcome == Done {
      var e := Apply(change, w.tables[c].row[f]);
      forall k ensures SoundAt(s.world, k) {
        assert SoundAt(w, k);
        SlotChange(w.tables, c, f, e, w.tables[c].high, k);
      }
    } else {
      IdleStart(b, w, s);
    }
  }

  lemma CopyGood(b: Backend, w: World, c: nat, n: nat)
    requires Lawful(b) && Sound(b, w) && w.halt == Running
    ensures GoodStart(b, w, BeginCopyTable(b, w, c, n))
  {
    var s := BeginCopyTable(b, w, c, n);
    if c in w.tables && n !in w.tables {
      var es := EntriesOf(b, w.tables[c].row, |w.log|);
      assert w.tables - {n} == w.tables;
      IncrementAllCounted(w, es, Key(0, 0));
      forall k ensures SoundAt(s.world, k) {
        assert SoundAt(w, k);
        IncrementAllCounted(w, es, k);
        CageSplit(w.tables, n, w.tables[c], k);
        EntriesKeys(b, w.tables[c].row, |w.log|, k);
      }
    } else {
      IdleStart(b, w, s);
    }
  }

  /** Entries that leave a cage's row, with their keys put in flight. */
  lemma ReleaseSound(b: Backend, w: World, c: nat, gone: Row, w1: World, keys: multiset<Key>)
    requires Sound(b, w) && c in w.tables
    requires forall f :: f in gone ==> f in w.tables[c].row && w.tables[c].row[f] == gone[f]
    requires forall k :: keys[k] == |FdsWith(gone, k)|
    requires w1 == w.(tables := w1.tables, inFlight := w.inFlight + keys)
    requires
      || (w1.tables == w.tables - {c} && gone == w.tables[c].row)
      || w1.tables == w.tables[c := w.tables[c].(row := w.tables[c].row - gone.Keys)]
    ensures Sound(b, w1)
  {
    forall k ensures SoundAt(w1, k) {
      assert SoundAt(w, k);
      CageSplitAt(w.tables, c, k);
      if w1.tables != w.tables - {c} {
        CageSplit(w.tables, c, w1.tables[c], k);
        SplitRow(w.tables[c].row, gone, k);
      }
    }
  }

  lemma RemoveGood(b: Backend, w: World, c: nat)
    requires Lawful(b) && Sound(b, w) && w.halt == Running
    ensures GoodStart(b, w, BeginRemove(b, w, c))
  {
    var s := BeginRemove(b, w, c);
    if c in w.tables {
      var gone := w.tables[c].row;
      forall k ensures KeysOf(s.todo)[k] == |FdsWith(gone, k)| { EntriesKeys(b, gone, |w.log|, k); }
      ReleaseSound(b, w, c, gone, s.world, KeysOf(s.todo));
    } else {
      IdleStart(b, w, s);
    }
  }

  lemma ExecGood(b: Backend, w: World, c: nat)
    requires Lawful(b) && Sound(b, w) && w.halt == Running
    ensures GoodStart(b, w, BeginExec(b, w, c))
  {
    var s := BeginExec(b, w, c);
    if c in w.tables {
      var gone := Marked(w.tables[c].row);
      forall k ensures KeysOf(s.todo)[k] == |FdsWith(gone, k)| { EntriesKeys(b, gone, |w.log|, k); }
      ReleaseSound(b, w, c, gone, s.world, KeysOf(s.todo));
    } else {
      IdleStart(b, w, s);
    }
  }

  lemma CloseGood(b: Backend, w: World, c: nat, f: nat)
    requires Sound(b, w) && w.halt == Running
    ensures GoodStart(b, w, BeginClose(w, c, f))
  {
    var s := BeginClose(w, c, f);
    if s.todo == [] {
      IdleStart(b, w, s);
    } else {
      var gone := map[f := w.tables[c].row[f]];
      KeysOfOne(gone[f]);
      assert w.tables[c].row - gone.Keys == w.tables[c].row - {f};
      forall k ensures multiset{KeyOf(gone[f])}[k] == |FdsWith(gone, k)| {
        assert FdsWith(gone, k) == if KeyOf(gone[f]) == k then {f} else {};
      }
      ReleaseSound(b, w, c, gone, s.world, multiset{KeyOf(gone[f])});
    }
  }

  lemma EpollCreateGood(b: Backend, w: World, c: nat, cloexec: bool)
    requires Sound(b, w) && w.halt == Running
    ensures GoodStart(b, w, BeginEpollCreate(b, w, c, cloexec))
  {
    var e := Entry(FDT_KINDEPOLL, w.nextEpoll, cloexec, 0);
    var s, s1 := BeginGetUnused(b, w, c, e), BeginEpollCreate(b, w, c, cloexec);
    GetUnusedGood(b, w, c, e);
    hide BeginGetUnused;
    SameBooks(b, s.world, s1.world);
    hide Sound;
  }

  lemma EpollAddGood(b: Backend, w: World, c: nat, f: nat, kind: nat, under: nat)
    requires Sound(b, w) && w.halt == Running
    ensures GoodStart(b, w, BeginEpollAddUnder(b, w, c, f, kind, under))
  {
    hide Sound;
    IdleStart(b, w, BeginEpollAddUnder(b, w, c, f, kind, under));
  }

  lemma EpollWaitGood(b: Backend, w: World, c: nat, epfd: nat)
    requires Sound(b, w) && w.halt == Running
    ensures GoodStart(b, w, BeginEpollWait(b, w, c, epfd))
  {
    hide Sound;
    IdleStart(b, w, BeginEpollWait(b, w, c, epfd));
  }

  lemma TranslateGood(b: Backend, w: World, c: nat, f: nat)
    requires Sound(b, w) && w.halt == Running
    ensures GoodStart(b, w, BeginTranslate(w, c, f))
  {
    hide Sound;
    IdleStart(b, w, BeginTranslate(w, c, f));
  }

  lemma EpollCtlGood(b: Backend, w: World, c: nat, epfd: nat, op: EpollOp, f: nat)
    requires Sound(b, w) && w.halt == Running
    ensures GoodStart(b, w, BeginEpollCtl(b, w, c, epfd, op, f))
  {
    hide Sound, Control;
    IdleStart(b, w, BeginEpollCtl(b, w, c, epfd, op, f));
  }

  lemma NotedGood(b: Backend, w: World, e: Entry, s: Start)
    requires GoodStart(b, Noting(w, e), s)
    ensures GoodStart(b, w, s)
  {
    hide Sound, Foreign, KeysOf;
  }

  lemma NotedSound(b: Backend, w: World, e: Entry)
    requires Sound(b, w)
    ensures Sound(b, Noting(w, e)) && Noting(w, e).halt == w.halt
  {
    hide Foreign;
    SameBooks(b, w, Noting(w, e));
  }

  lemma BeginGood(b: Backend, w: World, call: Call)
    requires Lawful(b) && Sound(b, w) && w.halt == Running
    ensures GoodStart(b, w, Begin(b, w, call))
  {
    hide Sound, Lawful, Noting, GoodStart;
    hide BeginInit, BeginTranslate, BeginGetUnused, BeginGetUnusedFrom, BeginGetSpecific, BeginSet, BeginCopyTable;
    hide BeginRemove, BeginExec, BeginClose, BeginEpollCreate, BeginEpollAddUnder, BeginEpollCtl, BeginEpollWait;
    match call
    case InitCage(c) => InitGood(b, w, c);
    case Translate(c, f) => TranslateGood(b, w, c, f);
    case GetUnused(c, e) =>
      NotedSound(b, w, e);
      GetUnusedGood(b, Noting(w, e), c, e);
      NotedGood(b, w, e, Begin(b, w, call));
    case GetUnusedFrom(c, e, start) =>
      NotedSound(b, w, e);
      GetUnusedFromGood(b, Noting(w, e), c, e, start);
      NotedGood(b, w, e, Begin(b, w, call));
    case GetSpecific(c, f, e) =>
      NotedSound(b, w, e);
      GetSpecificGood(b, Noting(w, e), c, f, e);
      NotedGood(b, w, e, Begin(b, w, call));
    case SetCloexec(c, f, flag) => SetGood(b, w, c, f, Cloexec(flag));
    case SetPerfdinfo(c, f, info) => SetGood(b, w, c, f, Perfdinfo(info));
    case CopyTable(c, n) => CopyGood(b, w, c, n);
    case RemoveCage(c) => RemoveGood(b, w, c);
    case EmptyForExec(c) => ExecGood(b, w, c);
    case Close(c, f) => CloseGood(b, w, c, f);
    case EpollCreate(c, cloexec) => EpollCreateGood(b, w, c, cloexec);
    case EpollAddUnder(c, f, kind, under) => EpollAddGood(b, w, c, f, kind, under);
    case EpollCtl(c, epfd, op, f) => EpollCtlGood(b, w, c, epfd, op, f);
    case EpollWait(c, epfd) => EpollWaitGood(b, w, c, epfd);
  }

  // ---- handlers, and whole runs ----

  lemma DecrementAt(w: World, e: Entry, k: Key)
    requires SoundAt(w, k) && SoundAt(w, KeyOf(e)) && w.inFlight[KeyOf(e)] > 0
    ensures SoundAt(Decrement(w, e), k)
  {
    hide SlotsWith;
    var w1 := Decrement(w, e);
    LogStep(w.log, w1.log[|w.log|], k);
    hide Installs, Fires;
  }

  lemma DecrementSound(b: Backend, w: World, e: Entry)
    requires Sound(b, w) && w.halt == Running && w.inFlight[KeyOf(e)] > 0
    ensures Sound(b, Decrement(w, e))
    ensures Decrement(w, e).halt == Running
    ensures Decrement(w, e).inFlight == w.inFlight - multiset{KeyOf(e)}
    ensures w.log <= Decrement(w, e).log
  {
    var w1 := Decrement(w, e);
    assert SoundAt(w, KeyOf(e));
    forall k ensures SoundAt(w1, k) && BalancedAt(BooksOf(w1), k) {
      assert SoundAt(w, k);
      DecrementAt(w, e, k);
    }
    hide SoundAt;
    var ev := w1.log[|w.log|];
    assert ev.at == BooksOf(w1) && BalancedAt(ev.at, KeyOf(e));
    assert Exact(ev);
  }

  lemma Peel(m: multiset<Key>, a: multiset<Key>, r: multiset<Key>)
    requires a + r <= m
    ensures a <= m && r <= m - a && m - (a + r) == (m - a) - r
  {
  }

  lemma {:induction false} DrainSound(b: Backend, w: World, todo: seq<Entry>, rs: seq<Reaction>, onError: OnError, ok: Outcome)
    requires Lawful(b) && Sound(b, w)
    requires w.halt == Running ==> KeysOf(todo) <= w.inFlight
    requires onError == Return ==> |todo| <= 1
    ensures var w1 := Drain(b, w, todo, rs, onError, ok).0;
      && Sound(b, w1) && w.log <= w1.log
      && (w1.halt == Running ==> w.halt == Running && w1.inFlight == w.inFlight - KeysOf(todo))
    decreases rs, |todo|
  {
    hide Sound, Lawful, Decrement, React, KeysOf, Drain;
    if w.halt != Running || todo == [] {
      DrainEnd(b, w, todo, rs, onError, ok);
      KeysOfNone([]);
    } else {
      var e, rest := todo[0], todo[1..];
      assert todo == [e] + rest;
      KeysCons(e, rest);
      Peel(w.inFlight, multiset{KeyOf(e)}, KeysOf(rest));
      DecrementSound(b, w, e);
      if rs != [] {
        ReactSound(b, Decrement(w, e), rs[0]);
      }
      var w1 := Released(b, w, e, rs);
      DrainStep(b, w, todo, rs, onError, ok);
      hide Released, KeyOf;
      if w1.halt == Running {
        if Returned(rs) == 0 || onError == Ignore {
          DrainSound(b, w1, rest, Rest(rs), onError, ok);
        } else {
          SameBooks(b, w1, w1.(halt := HandlerFailed));
          KeysOfNone(if onError == Return then rest else []);
        }
      }
    }
  }

  lemma {:induction false} ReactSound(b: Backend, w: World, r: Reaction)
    requires Lawful(b) && Sound(b, w)
    ensures var w1 := React(b, w, r);
      && Sound(b, w1) && w.log <= w1.log
      && (w1.halt == Running ==> w.halt == Running && w1.inFlight == w.inFlight)
    decreases r, 0
  {
    RunAllSound(b, w, r.ops);
  }

  /** Every sequence of calls keeps the books balanced, handlers calling back in included. */
  lemma {:induction false} RunAllSound(b: Backend, w: World, ops: seq<Op>)
    requires Lawful(b) && Sound(b, w)
    ensures var w1 := RunAll(b, w, ops);
      && Sound(b, w1) && w.log <= w1.log
      && (w1.halt == Running ==> w.halt == Running && w1.inFlight == w.inFlight)
    decreases ops, 0
  {
    if ops != [] {
      RunSound(b, w, ops[0]);
      RunAllSound(b, Run(b, w, ops[0]).0, ops[1..]);
    }
  }

  lemma {:induction false} RunSound(b: Backend, w: World, op: Op)
    requires Lawful(b) && Sound(b, w)
    ensures var w1 := Run(b, w, op).0;
      && Sound(b, w1) && w.log <= w1.log
      && (w1.halt == Running ==> w.halt == Running && w1.inFlight == w.inFlight)
    decreases op, 0
  {
    if w.halt == Running {
      BeginGood(b, w, op.call);
      hide Begin, Sound, Lawful;
      var s := Begin(b, w, op.call);
      DrainSound(b, s.world, s.todo, op.reactions, s.onError, s.outcome);
    }
  }

  lemma EmptySound(b: Backend)
    ensures Sound(b, EMPTY_WORLD)
  {
    forall k ensures SoundAt(EMPTY_WORLD, k) {
      assert SlotsWith(EMPTY_WORLD.tables, k) == {};
    }
  }
}
