/**
 Cages as processes: fork, exit status, finalization, waiting. Calls of different cages run
 at the same time, so the steps here are the single updates of shared data, in any order that
 the callers' own order allows. The log is what has happened so far.
 */
module CageLifecycle {
  import opened Options

  const MAX_CAGEID: nat := 2048
  const INIT_CAGEID: nat := 1
  const U64: int := 0x1_0000_0000_0000_0000

  datatype Status = Exited(code: int) | Signaled(sig: int, core: bool)
  datatype Zombie = Zombie(cage: nat, status: Status)

  /** `childNum` is a 64-bit counter that wraps around. */
  datatype Cage = Cage(parent: nat, zombies: seq<Zombie>, childNum: int, final: Option<Status>)

  datatype What = Counted | Recorded | Pushed | Reaped

  /** A child counted, a status recorded for it, its zombie pushed, its zombie reaped. */
  datatype Event = Event(what: What, parent: nat, child: nat, status: Status)

  /**
   `next` is the last id given out. `spare` ids are given out and not counted yet, those in
   `forks` counted for their parent and not registered yet. `leaving` cages have begun to be
   finalized; those in `midway` are no longer counted and have no zombie yet. `ever` holds
   the ids registered at any time.
   */
  datatype System = System(
    cages: map<nat, Cage>,
    next: nat,
    spare: set<nat>,
    forks: map<nat, nat>,
    leaving: set<nat>,
    midway: set<nat>,
    ever: set<nat>,
    log: seq<Event>)

  datatype Step =
    | Alloc
    | Count(parent: nat, child: nat)
    | Register(child: nat)
    | Record(cage: nat, status: Status)
    | Leave(cage: nat)
    | Push(cage: nat)
    | Drop(cage: nat)
    | Reap(parent: nat, index: nat)

  const NEW_CAGE := Cage(0, [], 0, None)

  /** The first cage is its own parent. */
  const BOOT := System(map[INIT_CAGEID := NEW_CAGE.(parent := INIT_CAGEID)], INIT_CAGEID, {}, map[], {}, {}, {INIT_CAGEID}, [])

  /** A cage that is being forked from is not finalized, and a cage is finalized once at a time. */
  predicate Enabled(s: System, step: Step) {
    match step
    case Alloc => true
    case Count(p, c) => p in s.cages && p !in s.leaving && c in s.spare
    case Register(c) => c in s.forks
    case Record(c, _) => true
    case Leave(c) => c in s.cages && c !in s.leaving && c !in s.forks.Values
    case Push(c) => c in s.midway && c in s.cages
    case Drop(c) => c in s.leaving && c !in s.midway
    case Reap(p, i) => p in s.cages && i < |s.cages[p].zombies|
  }

  function Wrapped(x: int): int {
    x % U64
  }

  function Logged(s: System, e: Event): System {
    s.(log := s.log + [e])
  }

  /** Whether a cage's end is reported: it has a parent other than itself, and that one is there. */
  predicate Reports(s: System, c: nat) {
    c in s.cages && s.cages[c].parent != c && s.cages[c].parent in s.cages
  }

  function DoAlloc(s: System): System {
    if s.next + 1 < MAX_CAGEID then s.(next := s.next + 1, spare := s.spare + {s.next + 1}) else s
  }

  function DoCount(s: System, p: nat, c: nat): System
    requires Enabled(s, Count(p, c))
  {
    var cage := s.cages[p];
    Logged(s.(cages := s.cages[p := cage.(childNum := Wrapped(cage.childNum + 1))],
              spare := s.spare - {c}, forks := s.forks[c := p]),
           Event(Counted, p, c, Exited(0)))
  }

  function DoRegister(s: System, c: nat): System
    requires Enabled(s, Register(c))
  {
    s.(cages := s.cages[c := NEW_CAGE.(parent := s.forks[c])], forks := s.forks - {c}, ever := s.ever + {c})
  }

  /** Only the first status is kept; one for a cage that is gone is dropped. */
  function DoRecord(s: System, c: nat, status: Status): System {
    if c !in s.cages then s
    else
      var cage := s.cages[c];
      Logged(s.(cages := s.cages[c := if cage.final.None? then cage.(final := Some(status)) else cage]),
             Event(Recorded, cage.parent, c, status))
  }

  function DoLeave(s: System, c: nat): System
    requires Enabled(s, Leave(c))
  {
    if !Reports(s, c) then s.(leaving := s.leaving + {c})
    else
      var p := s.cages[c].parent;
      var cage := s.cages[p];
      s.(cages := s.cages[p := cage.(childNum := Wrapped(cage.childNum - 1))],
         leaving := s.leaving + {c}, midway := s.midway + {c})
  }

  function ZombieOf(cage: Cage, c: nat): Zombie {
    Zombie(c, if cage.final.Some? then cage.final.value else Exited(0))
  }

  /** A parent that is gone by now keeps its list to itself. */
  function DoPush(s: System, c: nat): System
    requires Enabled(s, Push(c))
  {
    var p, z := s.cages[c].parent, ZombieOf(s.cages[c], c);
    if p !in s.cages then s.(midway := s.midway - {c})
    else
      var cage := s.cages[p];
      Logged(s.(cages := s.cages[p := cage.(zombies := cage.zombies + [z])], midway := s.midway - {c}),
             Event(Pushed, p, c, z.status))
  }

  function DoDrop(s: System, c: nat): System {
    s.(cages := s.cages - {c}, leaving := s.leaving - {c})
  }

  function DoReap(s: System, p: nat, i: nat): System
    requires Enabled(s, Reap(p, i))
  {
    var cage := s.cages[p];
    var z := cage.zombies[i];
    Logged(s.(cages := s.cages[p := cage.(zombies := cage.zombies[..i] + cage.zombies[i + 1..])]),
           Event(Reaped, p, z.cage, z.status))
  }

  /** A step that is not enabled is not taken. */
  function Next(s: System, step: Step): System {
    if !Enabled(s, step) then s
    else
      match step
      case Alloc => DoAlloc(s)
      case Count(p, c) => DoCount(s, p, c)
      case Register(c) => DoRegister(s, c)
      case Record(c, status) => DoRecord(s, c, status)
      case Leave(c) => DoLeave(s, c)
      case Push(c) => DoPush(s, c)
      case Drop(c) => DoDrop(s, c)
      case Reap(p, i) => DoReap(s, p, i)
  }

  function Exec(s: System, steps: seq<Step>): System
    decreases |steps|
  {
    if steps == [] then s else Exec(Next(s, steps[0]), steps[1..])
  }

  // ---- what the log says ----

  /** The children of `p` that something happened to. */
  function Tally(log: seq<Event>, what: What, p: nat): multiset<nat> {
    if log == [] then multiset{}
    else
      var e := log[|log| - 1];
      Tally(log[..|log| - 1], what, p) + (if e.what == what && e.parent == p then multiset{e.child} else multiset{})
  }

  /** The first status recorded for a cage. */
  function First(log: seq<Event>, c: nat): Option<Status> {
    if log == [] then None
    else
      var e, before := log[|log| - 1], First(log[..|log| - 1], c);
      if before.None? && e.what == Recorded && e.child == c then Some(e.status) else before
  }

  function Cages(zs: seq<Zombie>): seq<nat> {
    seq(|zs|, i requires 0 <= i < |zs| => zs[i].cage)
  }

  function Ids(zs: seq<Zombie>): multiset<nat> {
    multiset(Cages(zs))
  }

  lemma TallyPush(log: seq<Event>, e: Event, what: What, p: nat)
    ensures Tally(log + [e], what, p)
         == if e.what == what && e.parent == p then Tally(log, what, p) + multiset{e.child} else Tally(log, what, p)
  {
    assert (log + [e])[..|log|] == log;
    assert Tally(log, what, p) + multiset{} == Tally(log, what, p);
  }

  lemma FirstPush(log: seq<Event>, e: Event, c: nat)
    ensures First(log + [e], c)
         == if First(log, c).None? && e.what == Recorded && e.child == c then Some(e.status) else First(log, c)
  {
    assert (log + [e])[..|log|] == log;
  }

  lemma IdsRemove(zs: seq<Zombie>, i: nat)
    requires i < |zs|
    ensures Ids(zs) == Ids(zs[..i] + zs[i + 1..]) + multiset{zs[i].cage}
  {
    var cs, rest := Cages(zs), zs[..i] + zs[i + 1..];
    assert Cages(rest) == cs[..i] + cs[i + 1..] && cs == cs[..i] + [cs[i]] + cs[i + 1..];
  }

  lemma IdsPush(zs: seq<Zombie>, z: Zombie)
    ensures Ids(zs + [z]) == Ids(zs) + multiset{z.cage}
  {
    assert Cages(zs + [z]) == Cages(zs) + [z.cage];
  }
}
