/**
 The cage table as the code keeps it: one slot per id, cages updated in place. A call made
 while no other cage is active does the steps of `CageLifecycle` one after the other.
 */
module CageTable {
  import opened Options
  import opened CageLifecycle
  import opened CageTheorems

  datatype Wait = NoChild | NotYet | Blocked | Got(zombie: Zombie)

  class Cages {
    const slots: array<Option<Cage>>
    var next: nat
    ghost var spare: set<nat>
    ghost var forks: map<nat, nat>
    ghost var leaving: set<nat>
    ghost var midway: set<nat>
    ghost var ever: set<nat>
    ghost var log: seq<Event>

    ghost predicate Valid()
      reads this, slots
    {
      slots.Length == MAX_CAGEID && IdsOk(View())
    }

    ghost function Table(): map<nat, Cage>
      reads slots
    {
      map c: nat | c < slots.Length && slots[c].Some? :: slots[c].value
    }

    ghost function View(): System
      reads this, slots
    {
      System(Table(), next, spare, forks, leaving, midway, ever, log)
    }

    /** `cagetable_init`, and the first cage. */
    constructor ()
      ensures Valid() && fresh(slots) && View() == BOOT
    {
      slots := new Option<Cage>[MAX_CAGEID](_ => None);
      next, spare, forks, leaving, midway, ever, log := INIT_CAGEID, {}, map[], {}, {}, {INIT_CAGEID}, [];
      new;
      slots[INIT_CAGEID] := Some(NEW_CAGE.(parent := INIT_CAGEID));
      assert Table() == BOOT.cages;
      BootOk();
    }

    /** `get_cage`. */
    method GetCage(c: nat) returns (cage: Option<Cage>)
      requires Valid()
      ensures cage == if c in View().cages then Some(View().cages[c]) else None
      ensures cage.Some? ==> c < MAX_CAGEID
    {
      if c >= MAX_CAGEID {
        return None;
      }
      cage := slots[c];
    }

    /** One slot set, in terms of the table. */
    method SetSlot(c: nat, cage: Option<Cage>)
      requires slots.Length == MAX_CAGEID && c < MAX_CAGEID
      modifies slots
      ensures Table() == if cage.Some? then old(Table())[c := cage.value] else old(Table()) - {c}
    {
      slots[c] := cage;
    }

    /** `alloc_cage_id`. */
    method AllocCageId() returns (id: Option<nat>)
      requires Valid()
      modifies this`next, this`spare
      ensures Valid() && View() == Next(old(View()), Alloc)
      ensures id.Some? <==> old(next) + 1 < MAX_CAGEID
      ensures id.Some? ==> id.value == next == old(next) + 1 && id.value in spare
    {
      IdsStep(View(), Alloc);
      hide IdsOk, Table;
      if next + 1 >= MAX_CAGEID {
        return None;
      }
      next := next + 1;
      spare := spare + {next};
      id := Some(next);
    }

    /** `cage_record_exit_status`. */
    method RecordExitStatus(c: nat, status: Status)
      requires Valid()
      modifies this`log, slots
      ensures Valid() && View() == Next(old(View()), Record(c, status))
    {
      IdsStep(View(), Record(c, status));
      hide IdsOk, Table;
      var cage := GetCage(c);
      if cage.None? {
        return;
      }
      log := log + [Event(Recorded, cage.value.parent, c, status)];
      SetSlot(c, Some(if cage.value.final.None? then cage.value.(final := Some(status)) else cage.value));
    }

    /** The cage's part of `fork`: an id, the parent's counter, and the new cage. */
    method Fork(parent: nat) returns (child: Option<nat>)
      requires Valid() && parent in View().cages && parent !in leaving
      modifies this, slots
      ensures Valid()
      ensures child.None? ==> View() == old(View())
      ensures child.Some? ==>
        View() == Next(Next(Next(old(View()), Alloc), Count(parent, child.value)), Register(child.value))
    {
      child := AllocCageId();
      if child.None? {
        return;
      }
      var c := child.value;
      hide IdsOk, Table;
      CountChild(parent, c);
      RegisterChild(parent, c);
    }

    method CountChild(parent: nat, c: nat)
      requires Valid() && Enabled(View(), Count(parent, c))
      modifies this, slots
      ensures Valid() && View() == Next(old(View()), Count(parent, c))
    {
      hide IdsOk, Table, Wrapped;
      IdsStep(View(), Count(parent, c));
      var cage := GetCage(parent);
      SetSlot(parent, Some(cage.value.(childNum := Wrapped(cage.value.childNum + 1))));
      spare, forks := spare - {c}, forks[c := parent];
      log := log + [Event(Counted, parent, c, Exited(0))];
    }

    /** `add_cage` for a forked child. */
    method RegisterChild(parent: nat, c: nat)
      requires Valid() && c in forks && forks[c] == parent
      modifies this, slots
      ensures Valid() && View() == Next(old(View()), Register(c))
    {
      IdsStep(View(), Register(c));
      assert c < MAX_CAGEID;
      hide IdsOk, Table;
      SetSlot(c, Some(NEW_CAGE.(parent := parent)));
      forks, ever := forks - {c}, ever + {c};
    }

    /** `cage_finalize`; a cage that is gone already is left alone. */
    method Finalize(c: nat)
      requires Valid() && (c in View().cages ==> Enabled(View(), Leave(c)))
      modifies this, slots
      ensures Valid()
      ensures View() == if c in old(View()).cages then Next(Next(Next(old(View()), Leave(c)), Push(c)), Drop(c)) else old(View())
    {
      hide IdsOk, Table, Wrapped;
      var cage := GetCage(c);
      if cage.None? {
        return;
      }
      var reports := NotifyParent(c, cage.value.parent);
      if reports {
        PushZombie(c, cage.value.parent);
      }
      assert View() == Next(Next(old(View()), Leave(c)), Push(c));
      IdsStep(View(), Drop(c));
      label Notified:
      SetSlot(c, None);
      leaving := leaving - {c};
      assert View() == Next(old@Notified(View()), Drop(c));
    }

    /** The parent, if there is one, no longer counts the cage. */
    method NotifyParent(c: nat, p: nat) returns (reports: bool)
      requires Valid() && Enabled(View(), Leave(c)) && View().cages[c].parent == p
      modifies this, slots
      ensures Valid() && View() == Next(old(View()), Leave(c))
      ensures reports == (c in midway) && (reports ==> p in View().cages && p != c) && c in View().cages && View().cages[c].parent == p
    {
      hide IdsOk, Table, Wrapped;
      IdsStep(View(), Leave(c));
      NotMidway(View(), c);
      reports := false;
      if p != c {
        var parent := GetCage(p);
        if parent.Some? {
          SetSlot(p, Some(parent.value.(childNum := Wrapped(parent.value.childNum - 1))));
          reports := true;
          midway := midway + {c};
        }
      }
      leaving := leaving + {c};
    }

    method PushZombie(c: nat, p: nat)
      requires Valid() && Enabled(View(), Push(c)) && View().cages[c].parent == p && p in View().cages
      modifies this, slots
      ensures Valid() && View() == Next(old(View()), Push(c))
    {
      IdsStep(View(), Push(c));
      hide IdsOk, Table;
      var cage := GetCage(c);
      var parent := GetCage(p);
      var z := ZombieOf(cage.value, c);
      SetSlot(p, Some(parent.value.(zombies := parent.value.zombies + [z])));
      midway := midway - {c};
      log := log + [Event(Pushed, p, c, z.status)];
    }

    /** Where a child's zombie is in a list. */
    static method Position(zs: seq<Zombie>, c: nat) returns (at: Option<nat>)
      ensures at.None? ==> forall k :: 0 <= k < |zs| ==> zs[k].cage != c
      ensures at.Some? ==> at.value < |zs| && zs[at.value].cage == c && forall k :: 0 <= k < at.value ==> zs[k].cage != c
    {
      var k := 0;
      while k < |zs|
        invariant k <= |zs| && forall l :: 0 <= l < k ==> zs[l].cage != c
      {
        if zs[k].cage == c {
          return Some(k);
        }
        k := k + 1;
      }
      at := None;
    }

    /**
     One round of `waitpid` for cage `p`: any child if `want` is None. `Blocked` is where the
     code yields and looks again.
     */
    method WaitPid(p: nat, want: Option<nat>, noHang: bool) returns (w: Wait)
      requires Valid() && p in View().cages
      modifies this`log, slots
      ensures Valid()
      ensures NoChildren(old(View()), p) ==> w == NoChild && View() == old(View())
      ensures w.Got? ==> exists i: nat ::
        && Enabled(old(View()), Reap(p, i)) && View() == Next(old(View()), Reap(p, i))
        && w.zombie == old(View()).cages[p].zombies[i]
        && (want.None? ==> i == 0) && (want.Some? ==> w.zombie.cage == want.value)
      ensures !w.Got? ==> View() == old(View())
      ensures want.None? && !NoChildren(old(View()), p) ==>
        if old(View()).cages[p].zombies != [] then w.Got? else w == (if noHang then NotYet else Blocked)
      ensures want.Some? && !NoChildren(old(View()), p) && !w.Got? ==>
        && (forall k :: 0 <= k < |old(View()).cages[p].zombies| ==> old(View()).cages[p].zombies[k].cage != want.value)
        && (w == Blocked <==> want.value in old(View()).cages && old(View()).cages[want.value].parent == p)
        && (w == Blocked || w == NoChild)
    {
      hide IdsOk, Table;
      var it := GetCage(p);
      var cage := it.value;
      if |cage.zombies| == 0 && cage.childNum == 0 {
        return NoChild;
      }
      var at := Some(0);
      if want.None? {
        if |cage.zombies| == 0 {
          return if noHang then NotYet else Blocked;
        }
      } else {
        at := Position(cage.zombies, want.value);
        if at.None? {
          var child := GetCage(want.value);
          return if child.Some? && child.value.parent == p then Blocked else NoChild;
        }
      }
      Take(p, at.value);
      w := Got(cage.zombies[at.value]);
    }

    /** `zombies.remove`. */
    method Take(p: nat, i: nat)
      requires Valid() && Enabled(View(), Reap(p, i))
      modifies this`log, slots
      ensures Valid() && View() == Next(old(View()), Reap(p, i))
    {
      IdsStep(View(), Reap(p, i));
      hide IdsOk, Table;
      var it := GetCage(p);
      var cage := it.value;
      var z := cage.zombies[i];
      SetSlot(p, Some(cage.(zombies := cage.zombies[..i] + cage.zombies[i + 1..])));
      log := log + [Event(Reaped, p, z.cage, z.status)];
    }
  }

  lemma NotMidway(s: System, c: nat)
    requires IdsOk(s) && c !in s.leaving
    ensures c !in s.midway
  {
  }
}
