/** What holds in every state the cages can reach, whatever the order of the steps. */
module CageTheorems {
  import opened Options
  import opened CageLifecycle

  // ---- the invariant ----

  /** Ids: given out once, registered once; who may still be a parent. */
  predicate IdsOk(s: System) {
    && s.next < MAX_CAGEID
    && (forall c :: c in s.spare ==> c <= s.next && c !in s.ever && c !in s.forks)
    && (forall c :: c in s.forks ==> c <= s.next && c !in s.ever && s.forks[c] in s.cages && s.forks[c] !in s.leaving)
    && (forall c :: c in s.ever ==> c <= s.next)
    && s.midway <= s.leaving <= s.cages.Keys <= s.ever
    && (forall c :: c in s.cages ==> s.cages[c].parent in s.ever)
    && (forall c :: c in s.midway ==> s.cages[c].parent != c)
  }

  /** The children a cage is still counted for. */
  function Live(s: System, p: nat): set<nat> {
    (set c | c in s.cages && s.cages[c].parent == p && c != p && c !in s.leaving)
    + (set c | c in s.forks && s.forks[c] == p)
  }

  /** The children no longer counted whose zombies are still to come. */
  function Mid(s: System, p: nat): set<nat> {
    set c | c in s.midway && c in s.cages && s.cages[c].parent == p
  }

  /** Every child ever counted is live, midway, a zombie or reaped, and only one of these. */
  predicate AccountAt(s: System, p: nat) {
    p in s.cages ==> Balance(s.cages[p], s.log, p, Live(s, p), Mid(s, p))
  }

  predicate Balance(cage: Cage, log: seq<Event>, p: nat, live: set<nat>, mid: set<nat>) {
    && cage.childNum == |live|
    && Tally(log, Counted, p) == multiset(live) + multiset(mid) + Tally(log, Pushed, p)
    && Tally(log, Pushed, p) == Ids(cage.zombies) + Tally(log, Reaped, p)
  }

  function StatusOf(o: Option<Status>): Status {
    if o.Some? then o.value else Exited(0)
  }

  /** What one event of the log allows to be said. */
  predicate EventOk(s: System, i: nat)
    requires i < |s.log|
  {
    var e := s.log[i];
    && e.parent in s.ever
    && (e.what == Counted ==> e.child !in s.spare && e.child <= s.next)
    && (e.what == Recorded ==> e.child in s.ever)
    && (e.what == Pushed ==>
          && e.child in s.ever && e.child !in s.midway && (e.child in s.cages ==> e.child in s.leaving)
          && e.status == StatusOf(First(s.log[..i], e.child)))
    && (e.what == Reaped ==> Event(Pushed, e.parent, e.child, e.status) in s.log[..i])
  }

  predicate Distinct(log: seq<Event>) {
    forall i, j :: 0 <= i < j < |log| && log[i].what == log[j].what != Recorded ==> log[i].child != log[j].child
  }

  predicate NotReaped(log: seq<Event>, c: nat) {
    forall i :: 0 <= i < |log| && log[i].what == Reaped ==> log[i].child != c
  }

  predicate ZombieOk(s: System, p: nat, k: nat)
    requires p in s.cages && k < |s.cages[p].zombies|
  {
    var z := s.cages[p].zombies[k];
    Event(Pushed, p, z.cage, z.status) in s.log && NotReaped(s.log, z.cage)
  }

  predicate CageOk(s: System, p: nat) {
    && (p in s.cages ==>
          && s.cages[p].final == First(s.log, p)
          && (forall k :: 0 <= k < |s.cages[p].zombies| ==> ZombieOk(s, p, k))
          && (forall k, l :: 0 <= k < l < |s.cages[p].zombies| ==> s.cages[p].zombies[k].cage != s.cages[p].zombies[l].cage))
    && (p !in s.ever ==> First(s.log, p).None?)
  }

  ghost predicate History(s: System) {
    && (forall i :: 0 <= i < |s.log| ==> EventOk(s, i))
    && Distinct(s.log)
    && (forall p :: CageOk(s, p))
  }

  ghost predicate Inv(s: System) {
    IdsOk(s) && (forall p :: AccountAt(s, p)) && History(s)
  }

  // ---- ids ----

  lemma IdsStep(s: System, step: Step)
    requires IdsOk(s)
    ensures IdsOk(Next(s, step))
  {
    hide Wrapped;
  }

  // ---- the account ----

  lemma {:induction false} Below(n: nat, x: set<nat>)
    requires forall c :: c in x ==> c < n
    ensures |x| <= n
    decreases n
  {
    if n > 0 {
      var y := x - {n - 1};
      Below(n - 1, y);
      assert |x| <= |y| + 1 by {
        if n - 1 in x {
          assert x == y + {n - 1};
        } else {
          assert x == y;
        }
      }
    } else {
      assert x == {};
    }
  }

  lemma LiveBound(s: System, p: nat)
    requires IdsOk(s)
    ensures |Live(s, p)| <= MAX_CAGEID
  {
    Below(MAX_CAGEID, Live(s, p));
  }

  lemma SetPlus(x: set<nat>, c: nat)
    requires c !in x
    ensures multiset(x + {c}) == multiset(x) + multiset{c} && |x + {c}| == |x| + 1
  {
  }

  lemma SetMinus(x: set<nat>, c: nat)
    requires c in x
    ensures multiset(x) == multiset(x - {c}) + multiset{c} && |x| == |x - {c}| + 1
  {
    assert x == (x - {c}) + {c};
  }

  /** An event that is none of a parent's own leaves its balance alone. */
  lemma OtherEvent(cage: Cage, log: seq<Event>, e: Event, p: nat, live: set<nat>, mid: set<nat>)
    requires Balance(cage, log, p, live, mid) && (e.parent != p || e.what == Recorded)
    ensures Balance(cage, log + [e], p, live, mid)
  {
    TallyPush(log, e, Counted, p);
    TallyPush(log, e, Pushed, p);
    TallyPush(log, e, Reaped, p);
    hide Tally, Ids;
  }

  lemma WrapSmall(x: int)
    requires 0 <= x < U64
    ensures Wrapped(x) == x
  {
  }

  /** A child moves from one part of the account to another, or joins both sides. */
  lemma Moved(all: multiset<nat>, a: multiset<nat>, b: multiset<nat>, b1: multiset<nat>, d: multiset<nat>, x: nat)
    requires all == a + b + d && b == b1 + multiset{x}
    ensures all == a + b1 + (d + multiset{x})
  {
    assert a + b + d == a + b1 + (d + multiset{x});
  }

  lemma Joined(all: multiset<nat>, a: multiset<nat>, b: multiset<nat>, d: multiset<nat>, x: nat)
    requires all == a + b + d
    ensures all + multiset{x} == (a + multiset{x}) + b + d
  {
    assert a + b + d + multiset{x} == (a + multiset{x}) + b + d;
  }

  lemma JoinedTwo(all: multiset<nat>, a: multiset<nat>, b: multiset<nat>, x: nat)
    requires all == a + b
    ensures all + multiset{x} == (a + multiset{x}) + b
  {
    assert a + b + multiset{x} == (a + multiset{x}) + b;
  }

  lemma MovedTwo(all: multiset<nat>, a: multiset<nat>, a1: multiset<nat>, b: multiset<nat>, x: nat)
    requires all == a + b && a == a1 + multiset{x}
    ensures all == a1 + (b + multiset{x})
  {
    assert a + b == a1 + (b + multiset{x});
  }

  lemma Sideways(all: multiset<nat>, a: multiset<nat>, a1: multiset<nat>, b: multiset<nat>, d: multiset<nat>, x: nat)
    requires all == a + b + d && a == a1 + multiset{x}
    ensures all == a1 + (b + multiset{x}) + d
  {
    assert a + b + d == a1 + (b + multiset{x}) + d;
  }

  lemma CountEvent(cage: Cage, log: seq<Event>, e: Event, p: nat, live: set<nat>, mid: set<nat>)
    requires Balance(cage, log, p, live, mid) && e.parent == p && e.what == Counted && e.child !in live
    ensures Balance(cage.(childNum := cage.childNum + 1), log + [e], p, live + {e.child}, mid)
  {
    TallyPush(log, e, Counted, p);
    TallyPush(log, e, Pushed, p);
    TallyPush(log, e, Reaped, p);
    SetPlus(live, e.child);
    hide Tally, Ids;
    Joined(Tally(log, Counted, p), multiset(live), multiset(mid), Tally(log, Pushed, p), e.child);
  }

  lemma LeaveEvent(cage: Cage, log: seq<Event>, c: nat, p: nat, live: set<nat>, mid: set<nat>)
    requires Balance(cage, log, p, live, mid) && c in live && c !in mid
    ensures Balance(cage.(childNum := cage.childNum - 1), log, p, live - {c}, mid + {c})
  {
    SetMinus(live, c);
    SetPlus(mid, c);
    hide Tally, Ids;
    Sideways(Tally(log, Counted, p), multiset(live), multiset(live - {c}), multiset(mid), Tally(log, Pushed, p), c);
  }

  lemma PushEvent(cage: Cage, log: seq<Event>, e: Event, z: Zombie, p: nat, live: set<nat>, mid: set<nat>)
    requires Balance(cage, log, p, live, mid) && e.parent == p && e.what == Pushed && e.child == z.cage && z.cage in mid
    ensures Balance(cage.(zombies := cage.zombies + [z]), log + [e], p, live, mid - {z.cage})
  {
    TallyPush(log, e, Counted, p);
    TallyPush(log, e, Pushed, p);
    TallyPush(log, e, Reaped, p);
    IdsPush(cage.zombies, z);
    SetMinus(mid, z.cage);
    hide Tally, Ids;
    Moved(Tally(log, Counted, p), multiset(live), multiset(mid), multiset(mid - {z.cage}), Tally(log, Pushed, p), z.cage);
    JoinedTwo(Tally(log, Pushed, p), Ids(cage.zombies), Tally(log, Reaped, p), z.cage);
  }

  lemma ReapEvent(cage: Cage, log: seq<Event>, e: Event, i: nat, p: nat, live: set<nat>, mid: set<nat>)
    requires Balance(cage, log, p, live, mid) && i < |cage.zombies|
    requires e.parent == p && e.what == Reaped && e.child == cage.zombies[i].cage
    ensures Balance(cage.(zombies := cage.zombies[..i] + cage.zombies[i + 1..]), log + [e], p, live, mid)
  {
    TallyPush(log, e, Counted, p);
    TallyPush(log, e, Pushed, p);
    TallyPush(log, e, Reaped, p);
    IdsRemove(cage.zombies, i);
    hide Tally, Ids;
    MovedTwo(Tally(log, Pushed, p), Ids(cage.zombies), Ids(cage.zombies[..i] + cage.zombies[i + 1..]), Tally(log, Reaped, p), e.child);
  }

  /** The same cages with the same parents, and the same forks: the same families. */
  lemma SameFamily(s: System, s1: System, q: nat)
    requires s1.cages.Keys == s.cages.Keys && forall c :: c in s.cages ==> s1.cages[c].parent == s.cages[c].parent
    requires s1.leaving == s.leaving && s1.midway == s.midway && s1.forks == s.forks
    ensures Live(s1, q) == Live(s, q) && Mid(s1, q) == Mid(s, q)
  {
  }

  lemma CountSets(s: System, p: nat, c: nat, q: nat)
    requires IdsOk(s) && Enabled(s, Count(p, c))
    ensures var s1 := DoCount(s, p, c);
      Mid(s1, q) == Mid(s, q) && Live(s1, q) == (if q == p then Live(s, q) + {c} else Live(s, q)) && c !in Live(s, q)
  {
    var s0 := s.(cages := DoCount(s, p, c).cages);
    SameFamily(s, s0, q);
    assert DoCount(s, p, c).forks == s.forks[c := p];
  }

  lemma CountAccount(s: System, p: nat, c: nat, q: nat)
    requires IdsOk(s) && AccountAt(s, q) && Enabled(s, Count(p, c))
    ensures AccountAt(DoCount(s, p, c), q)
  {
    if q in s.cages {
      var s1, e := DoCount(s, p, c), Event(Counted, p, c, Exited(0));
      CountSets(s, p, c, q);
      NoWrap(s, q);
      hide Live, Mid, Balance, Wrapped, IdsOk;
      if q == p {
        CountEvent(s.cages[q], s.log, e, q, Live(s, q), Mid(s, q));
      } else {
        OtherEvent(s.cages[q], s.log, e, q, Live(s, q), Mid(s, q));
      }
    }
  }

  /** The counter moves up and down without wrapping. */
  lemma NoWrap(s: System, q: nat)
    requires IdsOk(s) && AccountAt(s, q) && q in s.cages
    ensures var n := s.cages[q].childNum; Wrapped(n + 1) == n + 1 && (Live(s, q) != {} ==> Wrapped(n - 1) == n - 1)
  {
    LiveBound(s, q);
    hide Live, Mid, Tally, Ids, IdsOk;
    var n := s.cages[q].childNum;
    WrapSmall(n + 1);
    if Live(s, q) != {} {
      WrapSmall(n - 1);
    }
  }

  lemma RegisterSets(s: System, c: nat, q: nat)
    requires IdsOk(s) && Enabled(s, Register(c))
    ensures var s1 := DoRegister(s, c);
      if q == c then Live(s1, q) == {} && Mid(s1, q) == {} else Live(s1, q) == Live(s, q) && Mid(s1, q) == Mid(s, q)
  {
  }

  lemma RegisterAccount(s: System, c: nat, q: nat)
    requires IdsOk(s) && AccountAt(s, q) && Enabled(s, Register(c))
    requires forall i :: 0 <= i < |s.log| ==> s.log[i].parent in s.ever
    ensures AccountAt(DoRegister(s, c), q)
  {
    RegisterSets(s, c, q);
    if q == c {
      NoTally(s.log, q, s.ever);
    }
    hide Live, Mid, Tally, IdsOk;
  }

  lemma {:induction false} NoTally(log: seq<Event>, p: nat, ever: set<nat>)
    requires (forall i :: 0 <= i < |log| ==> log[i].parent in ever) && p !in ever
    ensures forall what :: Tally(log, what, p) == multiset{}
    decreases |log|
  {
    if log != [] {
      NoTally(log[..|log| - 1], p, ever);
    }
  }

  lemma RecordAccount(s: System, c: nat, status: Status, q: nat)
    requires AccountAt(s, q) && c in s.cages
    ensures AccountAt(DoRecord(s, c, status), q)
  {
    SameFamily(s, DoRecord(s, c, status), q);
    hide Live, Mid;
    if q in s.cages {
      OtherEvent(s.cages[q], s.log, Event(Recorded, s.cages[c].parent, c, status), q, Live(s, q), Mid(s, q));
    }
    hide Tally, Ids;
  }

  lemma LeaveSets(s: System, c: nat, q: nat)
    requires IdsOk(s) && Enabled(s, Leave(c)) && q in s.cages
    ensures var s1 := DoLeave(s, c);
      if Reports(s, c) && q == s.cages[c].parent
      then c in Live(s, q) && c !in Mid(s, q) && Live(s1, q) == Live(s, q) - {c} && Mid(s1, q) == Mid(s, q) + {c}
      else Live(s1, q) == Live(s, q) && Mid(s1, q) == Mid(s, q)
  {
    var s0 := s.(cages := DoLeave(s, c).cages);
    SameFamily(s, s0, q);
    assert DoLeave(s, c) == s0.(leaving := s.leaving + {c}, midway := if Reports(s, c) then s.midway + {c} else s.midway);
  }

  lemma LeaveAccount(s: System, c: nat, q: nat)
    requires IdsOk(s) && AccountAt(s, q) && Enabled(s, Leave(c))
    ensures AccountAt(DoLeave(s, c), q)
  {
    if q in s.cages {
      hide DoLeave, Live, Mid, IdsOk, Balance, Wrapped;
      LeaveSets(s, c, q);
      LeaveCage(s, c, q);
      NoWrap(s, q);
      if Reports(s, c) && q == s.cages[c].parent {
        LeaveEvent(s.cages[q], s.log, c, q, Live(s, q), Mid(s, q));
      }
    }
  }

  /** What the step does to one cage. */
  lemma LeaveCage(s: System, c: nat, q: nat)
    requires Enabled(s, Leave(c))
    ensures var s1 := DoLeave(s, c);
      && s1.log == s.log && (q in s1.cages <==> q in s.cages)
      && (q in s.cages ==>
            s1.cages[q] == if Reports(s, c) && q == s.cages[c].parent
                           then s.cages[q].(childNum := Wrapped(s.cages[q].childNum - 1)) else s.cages[q])
  {
    hide Wrapped;
  }

  lemma PushSets(s: System, c: nat, q: nat)
    requires IdsOk(s) && Enabled(s, Push(c)) && q in s.cages
    ensures var s1 := DoPush(s, c);
      Live(s1, q) == Live(s, q)
      && if q == s.cages[c].parent then c in Mid(s, q) && Mid(s1, q) == Mid(s, q) - {c} else Mid(s1, q) == Mid(s, q)
  {
    var s0 := s.(cages := DoPush(s, c).cages);
    SameFamily(s, s0, q);
    assert DoPush(s, c).midway == s.midway - {c};
  }

  lemma PushAccount(s: System, c: nat, q: nat)
    requires IdsOk(s) && AccountAt(s, q) && Enabled(s, Push(c))
    ensures AccountAt(DoPush(s, c), q)
  {
    if q in s.cages {
      PushSets(s, c, q);
      hide Live, Mid, IdsOk, Balance;
      var p, z := s.cages[c].parent, ZombieOf(s.cages[c], c);
      var e := Event(Pushed, p, c, z.status);
      if q == p {
        PushEvent(s.cages[q], s.log, e, z, q, Live(s, q), Mid(s, q));
      } else if p in s.cages {
        OtherEvent(s.cages[q], s.log, e, q, Live(s, q), Mid(s, q));
      }
    }
  }

  lemma DropAccount(s: System, c: nat, q: nat)
    requires IdsOk(s) && AccountAt(s, q) && Enabled(s, Drop(c))
    ensures AccountAt(DoDrop(s, c), q)
  {
    hide Tally, Ids;
    var s1 := DoDrop(s, c);
    assert Live(s1, q) == Live(s, q) && Mid(s1, q) == Mid(s, q);
  }

  lemma ReapAccount(s: System, p: nat, i: nat, q: nat)
    requires AccountAt(s, q) && Enabled(s, Reap(p, i))
    ensures AccountAt(DoReap(s, p, i), q)
  {
    SameFamily(s, DoReap(s, p, i), q);
    hide Live, Mid, Balance;
    var z := s.cages[p].zombies[i];
    var e := Event(Reaped, p, z.cage, z.status);
    if q == p {
      ReapEvent(s.cages[q], s.log, e, i, q, Live(s, q), Mid(s, q));
    } else if q in s.cages {
      OtherEvent(s.cages[q], s.log, e, q, Live(s, q), Mid(s, q));
    }
  }

  lemma AllocAccount(s: System, q: nat)
    requires AccountAt(s, q)
    ensures AccountAt(DoAlloc(s), q)
  {
    hide Tally, Ids;
    assert Live(DoAlloc(s), q) == Live(s, q) && Mid(DoAlloc(s), q) == Mid(s, q);
  }

  lemma AccountStep(s: System, step: Step, q: nat)
    requires IdsOk(s) && AccountAt(s, q)
    requires forall i :: 0 <= i < |s.log| ==> s.log[i].parent in s.ever
    ensures AccountAt(Next(s, step), q)
  {
    hide AccountAt, DoAlloc, DoCount, DoRegister, DoLeave, DoPush, DoDrop, DoReap;
    if Enabled(s, step) {
      match step
      case Alloc => AllocAccount(s, q);
      case Count(p, c) => CountAccount(s, p, c, q);
      case Register(c) => RegisterAccount(s, c, q);
      case Record(c, status) =>
        if c in s.cages {
          RecordAccount(s, c, status, q);
        }
      case Leave(c) => LeaveAccount(s, c, q);
      case Push(c) => PushAccount(s, c, q);
      case Drop(c) => DropAccount(s, c, q);
      case Reap(p, i) => ReapAccount(s, p, i, q);
    }
  }

  // ---- the history ----

  /** Every step keeps the log and adds at most one event. */
  lemma LogStep(s: System, step: Step)
    ensures s.log <= Next(s, step).log && |Next(s, step).log| <= |s.log| + 1
  {
  }

  lemma EventKept(s: System, step: Step, i: nat)
    requires IdsOk(s) && Enabled(s, step) && i < |s.log| && EventOk(s, i)
    ensures i < |Next(s, step).log| && EventOk(Next(s, step), i)
  {
    var s1 := Next(s, step);
    LogStep(s, step);
    assert s1.log[i] == s.log[i] && s1.log[..i] == s.log[..i];
    hide First, Wrapped, StatusOf;
  }

  lemma EventNew(s: System, step: Step)
    requires IdsOk(s) && Enabled(s, step) && (forall p :: CageOk(s, p)) && |Next(s, step).log| == |s.log| + 1
    ensures EventOk(Next(s, step), |s.log|)
  {
    var s1, n := Next(s, step), |s.log|;
    LogStep(s, step);
    assert s1.log[..n] == s.log;
    hide First, Wrapped, NotReaped;
    match step
    case Push(c) =>
      assert CageOk(s, c);
    case Reap(p, k) =>
      assert CageOk(s, p);
      assert ZombieOk(s, p, k);
    case _ =>
  }

  lemma NotPushed(s: System, c: nat)
    requires (forall i :: 0 <= i < |s.log| ==> EventOk(s, i)) && c in s.midway
    ensures forall i :: 0 <= i < |s.log| && s.log[i].what == Pushed ==> s.log[i].child != c
    ensures NotReaped(s.log, c)
  {
    hide First, StatusOf;
    forall i | 0 <= i < |s.log| && s.log[i].what == Pushed ensures s.log[i].child != c {
      assert EventOk(s, i);
    }
    forall i | 0 <= i < |s.log| && s.log[i].what == Reaped ensures s.log[i].child != c {
      assert EventOk(s, i);
      var e := Event(Pushed, s.log[i].parent, s.log[i].child, s.log[i].status);
      assert e in s.log;
    }
  }

  /** The event a step adds, if any. */
  lemma NewEvent(s: System, step: Step)
    requires Enabled(s, step) && |Next(s, step).log| == |s.log| + 1
    ensures var e := Next(s, step).log[|s.log|];
      match step
      case Count(p, c) => e.what == Counted && e.child == c
      case Record(c, _) => e.what == Recorded
      case Push(c) => e.what == Pushed && e.child == c
      case Reap(p, k) => e.what == Reaped && e.child == s.cages[p].zombies[k].cage
      case _ => false
  {
  }

  lemma DistinctStep(s: System, step: Step)
    requires History(s) && Enabled(s, step)
    ensures Distinct(Next(s, step).log)
  {
    var s1 := Next(s, step);
    LogStep(s, step);
    if |s1.log| == |s.log| + 1 {
      NewEvent(s, step);
      hide First, StatusOf, Next;
      if step.Count? {
        forall i | 0 <= i < |s.log| && s.log[i].what == Counted ensures s.log[i].child != step.child {
          assert EventOk(s, i);
        }
      } else if step.Push? {
        NotPushed(s, step.cage);
      } else if step.Reap? {
        assert CageOk(s, step.parent) && ZombieOk(s, step.parent, step.index);
      }
      DistinctPush(s.log, s1.log[|s.log|]);
      assert s1.log == s.log + [s1.log[|s.log|]];
    } else {
      assert s1.log == s.log;
    }
  }

  lemma DistinctPush(log: seq<Event>, e: Event)
    requires Distinct(log)
    requires e.what != Recorded ==> forall i :: 0 <= i < |log| && log[i].what == e.what ==> log[i].child != e.child
    ensures Distinct(log + [e])
  {
  }

  lemma FirstStep(s: System, step: Step, p: nat)
    requires IdsOk(s) && CageOk(s, p) && Enabled(s, step)
    ensures var s1 := Next(s, step);
      (p in s1.cages ==> s1.cages[p].final == First(s1.log, p)) && (p !in s1.ever ==> First(s1.log, p).None?)
  {
    var s1 := Next(s, step);
    LogStep(s, step);
    if |s1.log| == |s.log| + 1 {
      NewEvent(s, step);
      FirstPush(s.log, s1.log[|s.log|], p);
      assert s1.log == s.log + [s1.log[|s.log|]];
    } else {
      assert s1.log == s.log;
    }
    hide First, Wrapped, NotReaped, ZombieOk;
  }

  /** A zombie that stays is still pushed and not reaped. */
  lemma ZombieStays(s: System, step: Step, p: nat, z: Zombie)
    requires Enabled(s, step) && Event(Pushed, p, z.cage, z.status) in s.log && NotReaped(s.log, z.cage)
    requires step.Reap? ==> s.cages[step.parent].zombies[step.index].cage != z.cage
    ensures Event(Pushed, p, z.cage, z.status) in Next(s, step).log && NotReaped(Next(s, step).log, z.cage)
  {
    var s1 := Next(s, step);
    LogStep(s, step);
    if |s1.log| == |s.log| + 1 {
      NewEvent(s, step);
      assert s1.log == s.log + [s1.log[|s.log|]];
    } else {
      assert s1.log == s.log;
    }
  }

  /** Zombies of different cages, or at different places, are different children. */
  lemma ZombiesDiffer(s: System, p: nat, k: nat, q: nat, l: nat)
    requires Distinct(s.log) && CageOk(s, p) && CageOk(s, q) && p in s.cages && q in s.cages
    requires k < |s.cages[p].zombies| && l < |s.cages[q].zombies| && (p != q || k != l)
    ensures s.cages[p].zombies[k].cage != s.cages[q].zombies[l].cage
  {
    hide First, NotReaped;
    if p != q {
      assert ZombieOk(s, p, k) && ZombieOk(s, q, l);
      var y, z := s.cages[p].zombies[k], s.cages[q].zombies[l];
      var i :| 0 <= i < |s.log| && s.log[i] == Event(Pushed, p, y.cage, y.status);
      var j :| 0 <= j < |s.log| && s.log[j] == Event(Pushed, q, z.cage, z.status);
      assert i < j || j < i;
    }
  }

  /** What a step does to a cage's zombies. */
  lemma ZombiesStep(s: System, step: Step, p: nat)
    requires IdsOk(s) && Enabled(s, step) && p in Next(s, step).cages
    ensures var zs := Next(s, step).cages[p].zombies;
      if p !in s.cages then zs == []
      else if step.Push? && p == s.cages[step.cage].parent then zs == s.cages[p].zombies + [ZombieOf(s.cages[step.cage], step.cage)]
      else if step.Reap? && p == step.parent then
        zs == s.cages[p].zombies[..step.index] + s.cages[p].zombies[step.index + 1..]
      else zs == s.cages[p].zombies
  {
  }

  lemma ZombiesKept(s: System, step: Step, p: nat)
    requires IdsOk(s) && History(s) && Enabled(s, step) && p in Next(s, step).cages && p in s.cages
    requires !(step.Push? && p == s.cages[step.cage].parent) && !(step.Reap? && p == step.parent)
    ensures var s1 := Next(s, step);
      forall k :: 0 <= k < |s1.cages[p].zombies| ==> ZombieOk(s1, p, k)
  {
    ZombiesStep(s, step, p);
    assert CageOk(s, p);
    var zs := s.cages[p].zombies;
    hide Next, First, NotReaped, IdsOk;
    forall k | 0 <= k < |zs| ensures ZombieOk(Next(s, step), p, k) {
      assert ZombieOk(s, p, k);
      if step.Reap? {
        assert CageOk(s, step.parent);
        ZombiesDiffer(s, step.parent, step.index, p, k);
      }
      ZombieStays(s, step, p, zs[k]);
    }
  }

  lemma ZombiesPushed(s: System, c: nat)
    requires IdsOk(s) && History(s) && Enabled(s, Push(c)) && s.cages[c].parent in s.cages
    ensures var s1, p := DoPush(s, c), s.cages[c].parent; var zs := s1.cages[p].zombies;
      && (forall k :: 0 <= k < |zs| ==> ZombieOk(s1, p, k))
      && (forall k, l :: 0 <= k < l < |zs| ==> zs[k].cage != zs[l].cage)
  {
    var s1, p, z := DoPush(s, c), s.cages[c].parent, ZombieOf(s.cages[c], c);
    var zs, n := s1.cages[p].zombies, |s.cages[p].zombies|;
    assert CageOk(s, p);
    NotPushed(s, c);
    assert zs == s.cages[p].zombies + [z] && s1.log == s.log + [Event(Pushed, p, c, z.status)];
    assert Next(s, Push(c)) == s1;
    hide Next, DoPush, First, IdsOk, ZombieOf;
    forall k | 0 <= k < |zs| ensures ZombieOk(s1, p, k) && (k < n ==> zs[k].cage != c) {
      if k < n {
        assert ZombieOk(s, p, k);
        ZombieStays(s, Push(c), p, zs[k]);
      } else {
        assert NotReaped(s.log, c);
      }
    }
  }

  lemma ZombiesReaped(s: System, p: nat, i: nat)
    requires IdsOk(s) && History(s) && Enabled(s, Reap(p, i))
    ensures var s1 := DoReap(s, p, i); var zs := s1.cages[p].zombies;
      && (forall k :: 0 <= k < |zs| ==> ZombieOk(s1, p, k))
      && (forall k, l :: 0 <= k < l < |zs| ==> zs[k].cage != zs[l].cage)
  {
    var s1, all := DoReap(s, p, i), s.cages[p].zombies;
    var zs := s1.cages[p].zombies;
    assert CageOk(s, p);
    assert zs == all[..i] + all[i + 1..] && Next(s, Reap(p, i)) == s1;
    hide Next, DoReap, First, IdsOk, NotReaped;
    forall k | 0 <= k < |zs| ensures ZombieOk(s1, p, k) {
      var k0 := if k < i then k else k + 1;
      assert ZombieOk(s, p, k0) && zs[k] == all[k0];
      ZombiesDiffer(s, p, i, p, k0);
      ZombieStays(s, Reap(p, i), p, zs[k]);
    }
  }

  lemma CageStep(s: System, step: Step, p: nat)
    requires IdsOk(s) && History(s) && Enabled(s, step)
    ensures CageOk(Next(s, step), p)
  {
    var s1 := Next(s, step);
    assert CageOk(s, p);
    FirstStep(s, step, p);
    if p in s1.cages {
      ZombiesStep(s, step, p);
      if p in s.cages {
        if step.Push? && p == s.cages[step.cage].parent {
          ZombiesPushed(s, step.cage);
        } else if step.Reap? && p == step.parent {
          ZombiesReaped(s, p, step.index);
        } else {
          ZombiesKept(s, step, p);
        }
      }
    }
    hide Next, First, ZombieOk, IdsOk;
  }

  lemma HistoryStep(s: System, step: Step)
    requires IdsOk(s) && History(s) && Enabled(s, step)
    ensures History(Next(s, step))
  {
    var s1 := Next(s, step);
    LogStep(s, step);
    DistinctStep(s, step);
    hide Next, EventOk, CageOk, Distinct;
    forall i | 0 <= i < |s1.log| ensures EventOk(s1, i) {
      if i < |s.log| {
        EventKept(s, step, i);
      } else {
        EventNew(s, step);
      }
    }
    forall p ensures CageOk(s1, p) {
      CageStep(s, step, p);
    }
  }

  // ---- every reachable state ----

  lemma BootOk()
    ensures Inv(BOOT)
  {
    forall p ensures AccountAt(BOOT, p) && CageOk(BOOT, p) {
      if p == INIT_CAGEID {
        assert Live(BOOT, p) == {} && Mid(BOOT, p) == {};
      }
    }
  }

  lemma InvStep(s: System, step: Step)
    requires Inv(s)
    ensures Inv(Next(s, step))
  {
    if Enabled(s, step) {
      IdsStep(s, step);
      HistoryStep(s, step);
      forall i | 0 <= i < |s.log| ensures s.log[i].parent in s.ever {
        assert EventOk(s, i);
      }
      hide Next, IdsOk, AccountAt, History;
      forall q ensures AccountAt(Next(s, step), q) {
        AccountStep(s, step, q);
      }
    }
  }

  lemma {:induction false} Reachable(s: System, steps: seq<Step>)
    requires Inv(s)
    ensures Inv(Exec(s, steps))
    decreases |steps|
  {
    hide Next, Inv;
    if steps != [] {
      InvStep(s, steps[0]);
      Reachable(Next(s, steps[0]), steps[1..]);
    }
  }

  // ---- the theorems ----

  /**
   A parent's counter is the number of its live children, so that the decrement for a child
   that ends never wraps; and every child it ever forked is live, on its way, a zombie, or
   reaped.
   */
  lemma ChildrenAreCounted(steps: seq<Step>, p: nat)
    ensures var s := Exec(BOOT, steps);
      p in s.cages ==>
        && s.cages[p].childNum == |Live(s, p)| <= MAX_CAGEID
        && Tally(s.log, Counted, p) == multiset(Live(s, p)) + multiset(Mid(s, p)) + Ids(s.cages[p].zombies) + Tally(s.log, Reaped, p)
        && (forall c :: c in s.cages && Enabled(s, Leave(c)) && Reports(s, c) && s.cages[c].parent == p ==> s.cages[p].childNum > 0)
  {
    BootOk();
    Reachable(BOOT, steps);
    var s := Exec(BOOT, steps);
    assert AccountAt(s, p);
    hide Exec, AccountAt, IdsOk, History, Tally, Ids;
    if p in s.cages {
      AccountMeans(s, p);
    }
  }

  lemma AccountMeans(s: System, p: nat)
    requires IdsOk(s) && AccountAt(s, p) && p in s.cages
    ensures s.cages[p].childNum == |Live(s, p)| <= MAX_CAGEID
    ensures Tally(s.log, Counted, p) == multiset(Live(s, p)) + multiset(Mid(s, p)) + Ids(s.cages[p].zombies) + Tally(s.log, Reaped, p)
    ensures forall c :: c in s.cages && Enabled(s, Leave(c)) && Reports(s, c) && s.cages[c].parent == p ==> s.cages[p].childNum > 0
  {
    LiveBound(s, p);
    hide Tally, Ids, IdsOk, Mid;
    LeaverCounts(s, p);
    hide Live;
    Split(Tally(s.log, Counted, p), multiset(Live(s, p)) + multiset(Mid(s, p)), Tally(s.log, Pushed, p), Ids(s.cages[p].zombies), Tally(s.log, Reaped, p));
  }

  lemma LeaverCounts(s: System, p: nat)
    requires p in s.cages && s.cages[p].childNum == |Live(s, p)|
    ensures forall c :: c in s.cages && Enabled(s, Leave(c)) && Reports(s, c) && s.cages[c].parent == p ==> s.cages[p].childNum > 0
  {
    forall c | c in s.cages && Enabled(s, Leave(c)) && Reports(s, c) && s.cages[c].parent == p ensures s.cages[p].childNum > 0 {
      assert c in Live(s, p);
    }
  }

  lemma Split(all: multiset<nat>, a: multiset<nat>, b: multiset<nat>, b1: multiset<nat>, b2: multiset<nat>)
    requires all == a + b && b == b1 + b2
    ensures all == a + b1 + b2
  {
    assert a + (b1 + b2) == a + b1 + b2;
  }

  /**
   Over a whole run, each child is counted once, gets at most one zombie and is reaped at
   most once; the zombie carries the first status recorded before it, or a successful exit;
   and what is reaped is what was pushed, for the same parent.
   */
  lemma OneZombieEach(steps: seq<Step>, i: nat, j: nat)
    requires i < j < |Exec(BOOT, steps).log|
    ensures var log := Exec(BOOT, steps).log;
      && (log[i].what == log[j].what != Recorded ==> log[i].child != log[j].child)
      && (log[j].what == Pushed ==> log[j].status == StatusOf(First(log[..j], log[j].child)))
      && (log[j].what == Reaped ==> Event(Pushed, log[j].parent, log[j].child, log[j].status) in log[..j])
  {
    BootOk();
    Reachable(BOOT, steps);
    var s := Exec(BOOT, steps);
    hide Exec, First;
    assert EventOk(s, j);
  }

  // ---- waiting ----

  /** The test of `waitpid` for a cage without children. */
  predicate NoChildren(s: System, p: nat)
    requires p in s.cages
  {
    s.cages[p].zombies == [] && s.cages[p].childNum == 0
  }

  /**
   A cage is told it has no children exactly when every child it forked has been reaped or is
   midway: no longer counted, and its zombie not pushed yet.
   */
  lemma NoChildrenExactly(steps: seq<Step>, p: nat)
    requires p in Exec(BOOT, steps).cages
    ensures var s := Exec(BOOT, steps);
      NoChildren(s, p) <==> Tally(s.log, Counted, p) == multiset(Mid(s, p)) + Tally(s.log, Reaped, p)
  {
    ChildrenAreCounted(steps, p);
    var s := Exec(BOOT, steps);
    hide Exec, Tally, Live, Mid;
    var live, mid, zs, reaped := Live(s, p), Mid(s, p), s.cages[p].zombies, Tally(s.log, Reaped, p);
    IdsSize(zs);
    SetSize(live);
    Absorbed(multiset(live), multiset(mid), Ids(zs), reaped);
  }

  lemma SetSize(x: set<nat>)
    ensures |multiset(x)| == |x|
  {
  }

  lemma SumSize(a: multiset<nat>, b: multiset<nat>)
    ensures |a + b| == |a| + |b|
  {
  }

  /** Two parts of a sum add nothing to the other two exactly when both are empty. */
  lemma Absorbed(a: multiset<nat>, b: multiset<nat>, c: multiset<nat>, d: multiset<nat>)
    ensures a + b + c + d == b + d <==> |a| + |c| == 0
  {
    SumSize(a, b);
    SumSize(a + b, c);
    SumSize(a + b + c, d);
    SumSize(b, d);
    if |a| + |c| == 0 {
      assert a == multiset{} && c == multiset{};
      assert multiset{} + b + multiset{} + d == b + d;
    }
  }

  lemma IdsSize(zs: seq<Zombie>)
    ensures |Ids(zs)| == |zs|
  {
    assert |Cages(zs)| == |zs|;
  }

  /** That midway counts: here a parent is told so while its only child is still to be reaped. */
  lemma WaitBetweenUpdates()
    ensures var steps := [Alloc, Count(1, 2), Register(2), Leave(2)]; var s := Exec(BOOT, steps);
      && 1 in s.cages && NoChildren(s, 1)
      && Tally(s.log, Counted, 1) == multiset{2} && Tally(s.log, Reaped, 1) == multiset{}
      && !NoChildren(Next(s, Push(2)), 1)
  {
    FourSteps(BOOT, Alloc, Count(1, 2), Register(2), Leave(2));
    var boot, e := NEW_CAGE.(parent := 1), Event(Counted, 1, 2, Exited(0));
    var s1 := BOOT.(next := 2, spare := {2});
    assert Next(BOOT, Alloc) == s1;
    var s2 := s1.(cages := map[1 := boot.(childNum := 1)], spare := {}, forks := map[2 := 1], log := [e]);
    assert Next(s1, Count(1, 2)) == s2;
    var s3 := s2.(cages := map[1 := boot.(childNum := 1), 2 := boot], forks := map[], ever := {1, 2});
    assert Next(s2, Register(2)) == s3;
    var s4 := s3.(cages := map[1 := boot, 2 := boot], leaving := {2}, midway := {2});
    assert Next(s3, Leave(2)) == s4;
    assert [e][..0] == [];
    assert Tally([e], Counted, 1) == multiset{2};
  }

  lemma FourSteps(s: System, a: Step, b: Step, c: Step, d: Step)
    ensures Exec(s, [a, b, c, d]) == Next(Next(Next(Next(s, a), b), c), d)
  {
    hide Next;
    assert [a, b, c, d][1..] == [b, c, d] && [b, c, d][1..] == [c, d] && [c, d][1..] == [d] && [d][1..] == [];
    var s1 := Next(s, a);
    var s2 := Next(s1, b);
    assert Exec(s, [a, b, c, d]) == Exec(s1, [b, c, d]) == Exec(s2, [c, d]) == Exec(Next(s2, c), [d]);
  }

  // ---- ids over a run ----

  /** The ids handed out are new: larger than every id in use or used before. */
  lemma IdsIncrease(steps: seq<Step>)
    ensures var s := Exec(BOOT, steps); var s1 := Next(s, Alloc);
      && s.next < MAX_CAGEID
      && (s1 != s ==> s1.next > s.next && s1.next in s1.spare)
      && (forall c :: c in s.cages || c in s.ever || c in s.forks || c in s.spare ==> c <= s.next)
      && (forall c :: Enabled(s, Register(c)) ==> c !in s.ever)
  {
    BootOk();
    Reachable(BOOT, steps);
    hide Exec;
  }

  lemma {:induction false} NextGrows(s: System, steps: seq<Step>)
    ensures Exec(s, steps).next >= s.next
    decreases |steps|
  {
    if steps != [] {
      NextGrows(Next(s, steps[0]), steps[1..]);
    }
  }

  /** Whatever happens in between, a later id is larger. */
  lemma AllocsIncrease(steps: seq<Step>, between: seq<Step>)
    ensures var s := Exec(BOOT, steps); var s1 := Next(s, Alloc);
      var t := Exec(s1, between); var t1 := Next(t, Alloc);
      s1 != s && t1 != t ==> s.next < s1.next < t1.next
  {
    var s1 := Next(Exec(BOOT, steps), Alloc);
    NextGrows(s1, between);
  }

  /** A cage that is gone never comes back. */
  lemma {:induction false} GoneForGood(s: System, steps: seq<Step>, c: nat)
    requires Inv(s) && c in s.ever && c !in s.cages
    ensures c !in Exec(s, steps).cages
    decreases |steps|
  {
    if steps != [] {
      InvStep(s, steps[0]);
      assert c in Next(s, steps[0]).ever && c !in Next(s, steps[0]).cages;
      hide Next;
      GoneForGood(Next(s, steps[0]), steps[1..], c);
    }
  }

  // ---- the status a waiting parent gets ----

  /** `encode_wait_status`; masks on an int are remainders. */
  function Encode(st: Status): int {
    match st
    case Exited(code) => (code % 0x100) * 0x100
    case Signaled(sig, core) => sig % 0x80 + (if core then 0x80 else 0)
  }

  /** How the wait macros of POSIX read a status; None for one that is neither. */
  function Decode(w: int): Option<Status> {
    if w % 0x80 == 0 then Some(Exited(w / 0x100 % 0x100))
    else if w % 0x80 != 0x7f then Some(Signaled(w % 0x80, w / 0x80 % 2 == 1))
    else None
  }

  /** The status comes back exactly when the code fits a byte, and the signal is one of 1 to 126. */
  lemma EncodeRoundTrip(st: Status)
    ensures Decode(Encode(st)) == Some(st)
       <==> match st case Exited(code) => 0 <= code <= 0xff case Signaled(sig, _) => 1 <= sig <= 0x7e
  {
    if st.Signaled? {
      var low, w := st.sig % 0x80, Encode(st);
      assert w % 0x80 == low && w / 0x80 % 2 == if st.core then 1 else 0;
    }
  }
}
