/**
 Cages and their descriptor tables together: fork copies a table before the child is
 registered, and finalization takes the table away before the cage leaves the cage table.
 */
module CageRuns {
  import opened FdSemantics
  import opened CageDescriptors
  import L = CageLifecycle
  import T = CageTheorems

  /** `cleared` cages are being finalized and have had their table taken away. */
  datatype Kernel = Kernel(sys: L.System, fds: World, cleared: set<nat>)

  /** A step of a cage's life, a descriptor call, or the removal of a table by finalization. */
  datatype Move = Life(step: L.Step) | Issue(op: Op) | Clear(cage: nat, reactions: seq<Reaction>)

  /** The first cage starts with a table of its own. */
  function Boot(b: Backend): Kernel {
    Kernel(L.BOOT, Run(b, EMPTY_WORLD, Op(InitCage(L.INIT_CAGEID), [])).0, {})
  }

  /** Tables are made for children being forked only, and registered cages keep theirs. */
  ghost predicate Orderly(k: Kernel, op: Op) {
    && (forall c :: c !in k.sys.spare && c !in k.sys.forks ==> Never(op, c, Making))
    && (forall c :: c in k.sys.ever ==> Never(op, c, Removing))
  }

  /** The same for the handlers that the removal of cage `c` triggers. */
  ghost predicate OrderlyIn(k: Kernel, rs: seq<Reaction>) {
    && (forall c :: c !in k.sys.spare && c !in k.sys.forks ==> NeverIn(rs, c, Making))
    && (forall c :: c in k.sys.ever ==> NeverIn(rs, c, Removing))
  }

  /** What the callers do: nothing once a table operation has panicked. */
  ghost predicate Allowed(k: Kernel, move: Move) {
    && k.fds.halt == Running
    && match move
       case Life(step) =>
         && L.Enabled(k.sys, step)
         && (step.Register? ==> step.child in k.fds.tables)
         && (step.Drop? ==> step.cage in k.cleared)
       case Issue(op) => Orderly(k, op)
       case Clear(c, rs) => c in k.sys.leaving && c !in k.sys.midway && OrderlyIn(k, rs)
  }

  ghost function Advance(b: Backend, k: Kernel, move: Move): Kernel {
    if !Allowed(k, move) then k
    else
      match move
      case Life(step) =>
        Kernel(L.Next(k.sys, step), k.fds, if step.Drop? then k.cleared - {step.cage} else k.cleared)
      case Issue(op) => k.(fds := Run(b, k.fds, op).0)
      case Clear(c, rs) => k.(fds := Run(b, k.fds, Op(RemoveCage(c), rs)).0, cleared := k.cleared + {c})
  }

  ghost function Play(b: Backend, k: Kernel, moves: seq<Move>): Kernel
    decreases |moves|
  {
    if moves == [] then k else Play(b, Advance(b, k, moves[0]), moves[1..])
  }

  /** A cage that was ever registered has a table exactly while it is there and not cleared. */
  predicate Tabled(k: Kernel, c: nat) {
    c in k.sys.ever ==> (c in k.fds.tables <==> c in k.sys.cages && c !in k.cleared)
  }

  ghost predicate Matched(k: Kernel) {
    T.IdsOk(k.sys) && k.cleared <= k.sys.leaving && forall c :: Tabled(k, c)
  }

  lemma BootMatched(b: Backend)
    ensures Matched(Boot(b))
  {
    var s := Begin(b, EMPTY_WORLD, InitCage(L.INIT_CAGEID));
    assert s.world.tables.Keys == {L.INIT_CAGEID} && s.todo == [];
    assert Boot(b).fds == s.world;
    hide Run, Begin;
  }

  /** What a step of a cage's life does to the sets of ids. */
  lemma LifeSets(s: L.System, step: L.Step)
    requires T.IdsOk(s) && L.Enabled(s, step)
    ensures var s1 := L.Next(s, step);
      && s1.ever == (if step.Register? then s.ever + {step.child} else s.ever)
      && s1.cages.Keys == (if step.Register? then s.cages.Keys + {step.child}
                           else if step.Drop? then s.cages.Keys - {step.cage} else s.cages.Keys)
      && (if step.Drop? then s1.leaving == s.leaving - {step.cage} else s.leaving <= s1.leaving)
  {
    hide L.Wrapped;
  }

  lemma LifeMatched(b: Backend, k: Kernel, step: L.Step)
    requires Matched(k) && Allowed(k, Life(step))
    ensures Matched(Advance(b, k, Life(step)))
  {
    var k1 := Advance(b, k, Life(step));
    LifeSets(k.sys, step);
    T.IdsStep(k.sys, step);
    assert step.Register? ==> step.child in k.sys.forks;
    hide L.Next, L.Enabled;
    forall c ensures Tabled(k1, c) {
      assert Tabled(k, c);
    }
  }

  /** A call makes no registered cage a table and takes none away. */
  lemma IssueMatched(b: Backend, k: Kernel, op: Op)
    requires Matched(k) && Orderly(k, op)
    ensures forall c :: c in k.sys.ever ==> (c in Run(b, k.fds, op).0.tables <==> c in k.fds.tables)
  {
    forall c | c in k.sys.ever ensures c in Run(b, k.fds, op).0.tables <==> c in k.fds.tables {
      RunStays(b, k.fds, op, c, Making);
      RunStays(b, k.fds, op, c, Removing);
    }
  }

  /** Nor do the handlers that run while a table is removed. */
  lemma ClearMatched(b: Backend, k: Kernel, d: nat, rs: seq<Reaction>)
    requires Matched(k) && Allowed(k, Clear(d, rs))
    ensures forall c :: c in k.sys.ever ==>
      (c in Run(b, k.fds, Op(RemoveCage(d), rs)).0.tables <==> c in k.fds.tables && c != d)
  {
    var op := Op(RemoveCage(d), rs);
    FinalizeLeavesNoSlots(b, k.fds, d, rs);
    forall c | c in k.sys.ever ensures c in Run(b, k.fds, op).0.tables <==> c in k.fds.tables && c != d {
      RunStays(b, k.fds, op, c, Making);
      if c != d {
        RunStays(b, k.fds, op, c, Removing);
      }
    }
  }

  lemma AdvanceMatched(b: Backend, k: Kernel, move: Move)
    requires Matched(k)
    ensures Matched(Advance(b, k, move))
  {
    if Allowed(k, move) {
      match move
      case Life(step) => LifeMatched(b, k, step);
      case Issue(op) =>
        IssueMatched(b, k, op);
        hide Run, Orderly;
        forall c ensures Tabled(Advance(b, k, move), c) { assert Tabled(k, c); }
      case Clear(d, rs) =>
        ClearMatched(b, k, d, rs);
        hide Run, OrderlyIn;
        forall c ensures Tabled(Advance(b, k, move), c) { assert Tabled(k, c); }
    }
  }

  lemma {:induction false} PlayMatched(b: Backend, k: Kernel, moves: seq<Move>)
    requires Matched(k)
    ensures Matched(Play(b, k, moves))
    decreases |moves|
  {
    if moves != [] {
      AdvanceMatched(b, k, moves[0]);
      hide Advance;
      PlayMatched(b, Advance(b, k, moves[0]), moves[1..]);
    }
  }

  /**
   In every run, whatever close handlers do in between and however the steps of different
   cages interleave: a cage that was ever registered has a descriptor table exactly from its
   registration to the removal in its finalization, and never again after it is gone.
   */
  lemma TablesFollowCages(b: Backend, moves: seq<Move>, c: nat)
    ensures var k := Play(b, Boot(b), moves);
      c in k.sys.ever ==> (c in k.fds.tables <==> c in k.sys.cages && c !in k.cleared)
  {
    BootMatched(b);
    hide Boot;
    PlayMatched(b, Boot(b), moves);
    hide Play;
    assert Tabled(Play(b, Boot(b), moves), c);
  }
}
