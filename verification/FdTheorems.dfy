/**
 What the balanced books mean for callers: exact counts over whole runs, exact handler
 arguments, allocation, and dup2 onto the same file.
 */
module FdTheorems {
  import opened FdTypes
  import opened FdSemantics
  import opened FdSteps
  import opened FdCounts

  // ---- induction over runs ----

  /** `p` survives the first part of every call, every release, and a handler's failure. */
  ghost predicate Stable(b: Backend, p: World -> bool) {
    && (forall w: World, call: Call :: p(w) && w.halt == Running ==> p(Begin(b, w, call).world))
    && (forall w: World, e: Entry :: p(w) && w.halt == Running ==> p(Decrement(w, e)))
    && (forall w: World :: p(w) ==> p(w.(halt := HandlerFailed)))
  }

  lemma {:induction false} DrainStable(b: Backend, p: World -> bool, w: World, todo: seq<Entry>, rs: seq<Reaction>,
                                       onError: OnError, ok: Outcome)
    requires Stable(b, p) && p(w)
    ensures p(Drain(b, w, todo, rs, onError, ok).0)
    decreases rs, |todo|
  {
    hide Decrement, React, Drain, Begin;
    if w.halt != Running || todo == [] {
      DrainEnd(b, w, todo, rs, onError, ok);
    } else {
      DrainStep(b, w, todo, rs, onError, ok);
      if rs != [] {
        ReactStable(b, p, Decrement(w, todo[0]), rs[0]);
      }
      DrainStable(b, p, Released(b, w, todo[0], rs), todo[1..], Rest(rs), onError, ok);
    }
  }

  lemma {:induction false} ReactStable(b: Backend, p: World -> bool, w: World, r: Reaction)
    requires Stable(b, p) && p(w)
    ensures p(React(b, w, r))
    decreases r, 0
  {
    RunAllStable(b, p, w, r.ops);
  }

  lemma {:induction false} RunAllStable(b: Backend, p: World -> bool, w: World, ops: seq<Op>)
    requires Stable(b, p) && p(w)
    ensures p(RunAll(b, w, ops))
    decreases ops, 0
  {
    if ops != [] {
      RunStable(b, p, w, ops[0]);
      RunAllStable(b, p, Run(b, w, ops[0]).0, ops[1..]);
    }
  }

  /** A stable property holds after a call, whatever the handlers do. */
  lemma {:induction false} RunStable(b: Backend, p: World -> bool, w: World, op: Op)
    requires Stable(b, p) && p(w)
    ensures p(Run(b, w, op).0)
    decreases op, 0
  {
    hide Begin;
    if w.halt == Running {
      var s := Begin(b, w, op.call);
      DrainStable(b, p, s.world, s.todo, op.reactions, s.onError, s.outcome);
    }
  }

  // ---- exact counts ----

  /**
   After any calls from empty tables: the count of every pair is the number of slots
   holding it, unless a panic left references between slots; every handler was called in
   a balanced state with the exact remaining count, `last` exactly when none remained; the
   count is what was installed less what was handed to handlers; and the library never
   panicked over its own counts.
   */
  lemma CountsAreExact(b: Backend, ops: seq<Op>)
    requires Lawful(b)
    ensures var w := RunAll(b, EMPTY_WORLD, ops);
      && Balanced(BooksOf(w))
      && (w.halt == Running ==> forall k :: CountOf(w.counts, k) == |SlotsWith(w.tables, k)|)
      && AllExact(w.log)
      && (forall k :: CountOf(w.counts, k) == Installs(w.log, k) - Fires(w.log, k))
      && w.halt != CountMissing && w.halt != CountUnderflow
  {
    EmptySound(b);
    RunAllSound(b, EMPTY_WORLD, ops);
    var w := RunAll(b, EMPTY_WORLD, ops);
    forall k
      ensures BalancedAt(BooksOf(w), k)
      ensures CountOf(w.counts, k) == Installs(w.log, k) - Fires(w.log, k)
      ensures w.halt == Running ==> CountOf(w.counts, k) == |SlotsWith(w.tables, k)|
    {
      assert SoundAt(w, k);
    }
  }

  // ---- dup2 ----

  /** The event of the first release is still there when everything is drained. */
  lemma FirstReleaseStays(b: Backend, w: World, todo: seq<Entry>, rs: seq<Reaction>, onError: OnError, ok: Outcome)
    requires Lawful(b) && Sound(b, w) && w.halt == Running && |todo| == 1 && KeysOf(todo) <= w.inFlight
    ensures Decrement(w, todo[0]).log <= Drain(b, w, todo, rs, onError, ok).0.log
  {
    assert todo == [todo[0]];
    KeysOfOne(todo[0]);
    KeysOfNone(todo[1..]);
    hide Decrement, Sound, Lawful, React, Drain, KeysOf;
    DecrementSound(b, w, todo[0]);
    if rs != [] {
      ReactSound(b, Decrement(w, todo[0]), rs[0]);
    }
    DrainStep(b, w, todo, rs, onError, ok);
    DrainSound(b, Released(b, w, todo[0], rs), todo[1..], Rest(rs), onError, ok);
  }

  lemma Dup2FirstEvents(b: Backend, w: World, c: nat, f: nat, e: Entry)
    requires Sound(b, w) && w.halt == Running
    requires c in w.tables && f in w.tables[c].row && f < FD_PER_PROCESS_MAX
    requires KeyOf(w.tables[c].row[f]) == KeyOf(e)
    ensures var s := Begin(b, w, GetSpecific(c, f, e));
      && s.world.halt == Running && s.todo == [w.tables[c].row[f]]
      && var w1 := Decrement(s.world, s.todo[0]);
         && CountOf(w.counts, KeyOf(e)) >= 1
         && w1.log == w.log + [Installed(KeyOf(e)),
                               Fired(w.tables[c].row[f], CountOf(w.counts, KeyOf(e)), false, BooksOf(w1))]
  {
    hide Foreign;
    assert SoundAt(w, KeyOf(e));
    assert (c, f) in SlotsWith(w.tables, KeyOf(e));
  }

  /**
   dup2 onto a slot that already holds the same (fdkind, underfd): the reference is
   counted before the old one is released, so the handler called for the old entry is the
   intermediate one, and it is told the count from before the call.
   */
  lemma Dup2SameKey(b: Backend, w: World, c: nat, f: nat, e: Entry, rs: seq<Reaction>)
    requires Lawful(b) && Sound(b, w) && w.halt == Running
    requires c in w.tables && f in w.tables[c].row && f < FD_PER_PROCESS_MAX
    requires KeyOf(w.tables[c].row[f]) == KeyOf(e)
    ensures var log := Run(b, w, Op(GetSpecific(c, f, e), rs)).0.log;
      && |w.log| + 2 <= |log| && w.log <= log
      && var ev := log[|w.log| + 1];
         && ev.Fired? && ev.entry == w.tables[c].row[f]
         && !ev.last && ev.remaining == CountOf(w.counts, KeyOf(e)) >= 1
  {
    Dup2FirstEvents(b, w, c, f, e);
    BeginGood(b, w, GetSpecific(c, f, e));
    hide Begin, Decrement, Sound, Drain, KeysOf;
    var op := Op(GetSpecific(c, f, e), rs);
    var s := Begin(b, w, op.call);
    FirstReleaseStays(b, s.world, s.todo, rs, s.onError, s.outcome);
    assert Run(b, w, op) == Drain(b, s.world, s.todo, rs, s.onError, s.outcome);
    var w1 := Decrement(s.world, s.todo[0]);
    assert w1.log[|w.log| + 1] == Run(b, w, op).0.log[|w.log| + 1];
  }

  // ---- allocation ----

  predicate Full(row: Row) {
    forall f :: 0 <= f < FD_PER_PROCESS_MAX ==> f in row
  }

  /**
   In every reachable state, get_unused_virtual_fd fails exactly when every slot is taken,
   and otherwise fills a vacant slot and touches no other: the high-water backend's fast
   path never overwrites a live entry. The backends that scan hand out the lowest one.
   */
  lemma AllocationIsExact(b: Backend, w: World, c: nat, e: Entry)
    requires Sound(b, w) && w.halt == Running && c in w.tables
    ensures var s := Begin(b, w, GetUnused(c, e)); var row := w.tables[c].row;
      && (s.outcome == Failed(EMFILE) <==> Full(row))
      && (Full(row) ==> BooksOf(s.world) == BooksOf(w))
      && (!Full(row) ==>
            && s.outcome.NewFd? && s.outcome.fd < FD_PER_PROCESS_MAX && s.outcome.fd !in row
            && s.world.tables[c].row == row[s.outcome.fd := e]
            && s.world.tables == w.tables[c := s.world.tables[c]]
            && (!b.HighWater? ==> forall g :: 0 <= g < s.outcome.fd ==> g in row))
  {
    hide Foreign;
    if b.HighWater? && w.tables[c].high < FD_PER_PROCESS_MAX {
      assert w.tables[c].high !in w.tables[c].row;
    }
  }
}
