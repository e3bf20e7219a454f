/** How a call unfolds step by step; shared by the backends' proofs. */
module FdSteps {
  import opened FdTypes
  import opened FdSemantics

  lemma {:induction false} HaltedStays(b: Backend, w: World, ops: seq<Op>)
    requires w.halt != Running
    ensures RunAll(b, w, ops) == w
    decreases |ops|
  {
    if ops != [] {
      HaltedStays(b, w, ops[1..]);
    }
  }

  /** The state after one release and its handler. */
  function Released(b: Backend, w: World, e: Entry, rs: seq<Reaction>): World {
    if rs == [] then Decrement(w, e) else React(b, Decrement(w, e), rs[0])
  }

  /** What the handler of the next release returns. */
  function Returned(rs: seq<Reaction>): int {
    if rs == [] then 0 else rs[0].errno
  }

  function Rest(rs: seq<Reaction>): seq<Reaction> {
    if rs == [] then [] else rs[1..]
  }

  /** The first release of a non-empty list, and what follows from the handler's verdict. */
  lemma DrainStep(b: Backend, w: World, todo: seq<Entry>, rs: seq<Reaction>, onError: OnError, ok: Outcome)
    requires w.halt == Running && todo != []
    ensures var w1 := Released(b, w, todo[0], rs);
      Drain(b, w, todo, rs, onError, ok)
      == if w1.halt != Running then (w1, Panicked)
         else if Returned(rs) == 0 || onError == Ignore then Drain(b, w1, todo[1..], Rest(rs), onError, ok)
         else if onError == Return then (w1, HandlerError(Returned(rs)))
         else (w1.(halt := HandlerFailed), Panicked)
  {
    hide Decrement, React;
  }

  /** Nothing left to release. */
  lemma DrainEnd(b: Backend, w: World, todo: seq<Entry>, rs: seq<Reaction>, onError: OnError, ok: Outcome)
    requires w.halt != Running || todo == []
    ensures Drain(b, w, todo, rs, onError, ok) == (w, if w.halt != Running then Panicked else ok)
  {
  }

  lemma {:induction false} IncrementAllRunning(w: World, es: seq<Entry>)
    ensures IncrementAll(w, es).halt == w.halt
    decreases |es|
  {
    if es != [] {
      IncrementAllRunning(Increment(w, es[0]), es[1..]);
    }
  }

  lemma PlainStart(b: Backend, w: World, call: Call)
    requires w.halt == Running && !call.CopyTable?
    requires !call.GetSpecific? && !call.RemoveCage? && !call.EmptyForExec? && !call.Close?
    ensures var s := Begin(b, w, call); s.todo == [] && (s.world.halt != Running ==> s.outcome == Panicked)
  {
    hide Foreign, LowestVacant, Control;
  }

  /** A call that releases nothing is over after its first part. */
  lemma PlainCall(b: Backend, w: World, op: Op)
    requires w.halt == Running
    requires !op.call.GetSpecific? && !op.call.RemoveCage? && !op.call.EmptyForExec? && !op.call.Close?
    ensures Run(b, w, op) == (Begin(b, w, op.call).world, Begin(b, w, op.call).outcome)
  {
    if op.call.CopyTable? {
      if op.call.cage in w.tables {
        IncrementAllRunning(w, EntriesOf(b, w.tables[op.call.cage].row, |w.log|));
      }
    } else {
      PlainStart(b, w, op.call);
      hide Begin;
    }
  }

  /** A row listed from above its last slot. */
  lemma {:induction false} NoneAbove(row: Row, i: nat)
    requires forall f :: f in row ==> f < i
    ensures Ascending(row, i) == []
    decreases FD_PER_PROCESS_MAX - i
  {
    if i < FD_PER_PROCESS_MAX {
      NoneAbove(row, i + 1);
    }
  }

  // ---- the control operation as coded, which every backend shares ----

  /** Change the map of user-handled descriptors of an epoll record, step by step. */
  method ChangeHandled(handled0: map<nat, map<nat, nat>>, op: EpollOp, kind: nat, fd: nat)
    returns (handled: map<nat, map<nat, nat>>, o: Outcome)
    ensures (handled, o) == Control(handled0, op, kind, fd)
  {
    handled := handled0;
    if op.Unsupported? {
      return handled, Failed(EINVAL);
    }
    if op.Add? {
      if kind !in handled {
        handled := handled[kind := map[]];
      }
      var inner: map<nat, nat> := handled[kind];
      if fd in inner {
        assert handled0[kind := handled0[kind]] == handled0;
        return handled, Failed(EEXIST);
      }
      inner := inner[fd := op.event];
      handled := handled[kind := inner];
      assert handled == handled0[kind := inner];
      return handled, Done;
    }
    if kind !in handled {
      return handled, Failed(ENOENT);
    }
    var inner: map<nat, nat> := handled[kind];
    if fd !in inner {
      return handled, Failed(ENOENT);
    }
    if op.Mod? {
      inner := inner[fd := op.event];
      handled := handled[kind := inner];
    } else {
      inner := inner - {fd};
      handled := handled[kind := inner];
      if inner == map[] {
        handled := handled - {kind};
        assert handled == handled0 - {kind};
      }
    }
    o := Done;
  }
}
