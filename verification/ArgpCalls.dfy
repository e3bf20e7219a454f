/** What the phases mean for single calls: their order, and who is told what. */
module ArgpCalls {
  import opened ArgpTypes
  import opened ArgpPack
  import opened ArgpTables
  import opened ArgpProtocol
  import opened ArgpPhases
  import opened ArgpLedger
  import opened ArgpFamily
  import ArgpHol

  /** The phase an event belongs to. */
  function Rank(e: Event): nat {
    if e.Asked? then 1
    else if e.key == INIT then 0
    else if e.key == NO_ARGS then 2
    else if e.key == END then 3
    else if e.key == SUCCESS || e.key == ERROR then 4
    else if e.key == FINI then 5
    else 1
  }

  /** The keys for which parents come before children. */
  predicate ParentsFirst(key: int) {
    key == INIT || key == NO_ARGS || key == ERROR
  }

  predicate Precedes(e1: Event, e2: Event) {
    || Rank(e1) < Rank(e2)
    || (Rank(e1) == Rank(e2) == 1)
    || (Rank(e1) == Rank(e2) && e1.key == e2.key && if ParentsFirst(e1.key) then e1.group < e2.group else e1.group > e2.group)
  }

  predicate Ordered(x: seq<Event>) {
    forall i, j :: 0 <= i < j < |x| ==> Precedes(x[i], x[j])
  }

  predicate Ranked(x: seq<Event>, low: nat, high: nat) {
    forall i :: 0 <= i < |x| ==> low <= Rank(x[i]) <= high
  }

  lemma OrderedAppend(x: seq<Event>, y: seq<Event>, r: nat, high: nat)
    requires Ordered(x) && Ordered(y) && Ranked(x, r, r) && Ranked(y, r + 1, high)
    ensures Ordered(x + y) && Ranked(x + y, r, if high > r then high else r)
  {
    var z := x + y;
    forall i, j | 0 <= i < j < |z| ensures Precedes(z[i], z[j]) {
      if j < |x| {
        assert Precedes(x[i], x[j]);
      } else if i >= |x| {
        assert Precedes(y[i - |x|], y[j - |x|]);
      } else {
        assert Rank(x[i]) < Rank(y[j - |x|]);
      }
    }
  }

  predicate Increasing(s: seq<nat>) {
    forall i, j :: 0 <= i < j < |s| ==> s[i] < s[j]
  }

  predicate Decreasing(s: seq<nat>) {
    forall i, j :: 0 <= i < j < |s| ==> s[i] > s[j]
  }

  lemma {:induction false} WithParserIn(env: Env, order: seq<nat>, g: nat)
    requires InGroups(env, order)
    ensures g in WithParser(env, order) <==> g in order && env.tables.groups[g].hasParser
    decreases |order|
  {
    if order != [] {
      WithParserIn(env, order[1..], g);
      assert g in order <==> g == order[0] || g in order[1..];
    }
  }

  lemma WithParserKeeps(env: Env, order: seq<nat>)
    requires InGroups(env, order)
    ensures forall g :: g in WithParser(env, order) <==> g in order && env.tables.groups[g].hasParser
    ensures Increasing(order) ==> Increasing(WithParser(env, order))
    ensures Decreasing(order) ==> Decreasing(WithParser(env, order))
  {
    forall g: nat ensures g in WithParser(env, order) <==> g in order && env.tables.groups[g].hasParser {
      WithParserIn(env, order, g);
    }
    WithParserOrder(env, order);
  }

  lemma {:induction false} WithParserOrder(env: Env, order: seq<nat>)
    requires InGroups(env, order)
    ensures Increasing(order) ==> Increasing(WithParser(env, order))
    ensures Decreasing(order) ==> Decreasing(WithParser(env, order))
    decreases |order|
  {
    if order != [] {
      var w := WithParser(env, order[1..]);
      WithParserOrder(env, order[1..]);
      forall g | g in w ensures g in order[1..] { WithParserIn(env, order[1..], g); }
      AheadOf(order, w);
    }
  }

  lemma AheadOf(order: seq<nat>, w: seq<nat>)
    requires order != [] && forall g :: g in w ==> g in order[1..]
    ensures Increasing(order) ==> forall k :: 0 <= k < |w| ==> order[0] < w[k]
    ensures Decreasing(order) ==> forall k :: 0 <= k < |w| ==> order[0] > w[k]
  {
    forall k | 0 <= k < |w|
      ensures Increasing(order) ==> order[0] < w[k]
      ensures Decreasing(order) ==> order[0] > w[k]
    {
      assert w[k] in order[1..];
      var m :| 0 <= m < |order[1..]| && order[1..][m] == w[k];
      assert order[m + 1] == w[k];
    }
  }

  lemma CallsOrdered(x: seq<Event>, groups: seq<nat>, key: int, r: nat)
    requires CallsOf(x, groups, key) && Rank(Called(0, key, 0)) == r != 1
    requires if ParentsFirst(key) then Increasing(groups) else Decreasing(groups)
    ensures Ordered(x) && Ranked(x, r, r)
  {
  }

  lemma SweptOrdered(env: Env, order: seq<nat>, key: int, x: seq<Event>, r: nat)
    requires Swept(env, order, key, x) || Complete(env, order, key, x)
    requires Rank(Called(0, key, 0)) == r != 1
    requires if ParentsFirst(key) then Increasing(order) else Decreasing(order)
    ensures Ordered(x) && Ranked(x, r, r)
  {
    WithParserKeeps(env, order);
    var w := WithParser(env, order);
    if Complete(env, order, key, x) {
      CallsOrdered(x, w, key, r);
    } else {
      CallsOrdered(x, w[..|x|], key, r);
    }
  }

  /** Option keys are never those of a phase. */
  lemma TargetKey(t: Tables, opt: int)
    requires Target(t, opt).Some?
    ensures Target(t, opt).value.1 < 0x100_0000
  {
    hide Dispatch;
  }

  lemma BodyOrdered(t: Tables, x: seq<Event>)
    requires Routed(t, x)
    ensures Ordered(x) && Ranked(x, 1, 1)
  {
    hide Target;
    forall i | 0 <= i < |x| ensures Rank(x[i]) == 1 {
      assert RoutedAt(t, x, i);
      if x[i].Called? && x[i].key != ARG && x[i].key != ARGS {
        TargetKey(t, x[i - 1].opt);
      }
    }
  }

  lemma PhasesOrdered(env: Env, out: Outcome, ph: Phases)
    requires PhasesOk(env, out, ph)
    ensures Ordered(out.trace)
  {
    var n := |env.tables.groups|;
    hide Swept, Complete, Ordered, Ranked, Rank, Routed, LastErr;
    BodyOrdered(env.tables, ph.body);
    SweptOrdered(env, Upward(n), INIT, ph.init, 0) by { RankOf(); }
    if ph.settled == 0 {
      SweptOrdered(env, Downward(n), SUCCESS, ph.verdict, 4) by { RankOf(); }
    } else {
      SweptOrdered(env, Upward(n), ERROR, ph.verdict, 4) by { RankOf(); }
    }
    SweptOrdered(env, Downward(n), FINI, ph.fini, 5) by { RankOf(); }
    ConcludingOrdered(env, ph);
    hide Concluding, NotConcluding, Closing, Upward, Downward;
    OrderedAppend(ph.verdict, ph.fini, 4, 5);
    OrderedAppend(ph.end, ph.verdict + ph.fini, 3, 5);
    OrderedAppend(ph.noArgs, ph.end + (ph.verdict + ph.fini), 2, 5);
    OrderedAppend(ph.body, ph.noArgs + (ph.end + (ph.verdict + ph.fini)), 1, 5);
    OrderedAppend(ph.init, ph.body + (ph.noArgs + (ph.end + (ph.verdict + ph.fini))), 0, 5);
  }

  lemma RankOf()
    ensures Rank(Called(0, INIT, 0)) == 0 && Rank(Called(0, NO_ARGS, 0)) == 2 && Rank(Called(0, END, 0)) == 3
    ensures Rank(Called(0, SUCCESS, 0)) == 4 && Rank(Called(0, ERROR, 0)) == 4 && Rank(Called(0, FINI, 0)) == 5
  {
  }

  lemma ConcludingOrdered(env: Env, ph: Phases)
    requires if ph.concluded then Concluding(env, ph) else NotConcluding(env, ph)
    ensures Ordered(ph.noArgs) && Ranked(ph.noArgs, 2, 2) && Ordered(ph.end) && Ranked(ph.end, 3, 3)
  {
    hide Swept, LastErr;
    if ph.concluded {
      SweptOrdered(env, ph.idle, NO_ARGS, ph.noArgs, 2);
      if LastErr(ph.noArgs) == 0 {
        SweptOrdered(env, Downward(|env.tables.groups|), END, ph.end, 3);
      }
    }
  }

  /**
   Any two calls of a finished run are in order: INIT, then options and arguments, then
   NO_ARGS, END, SUCCESS or ERROR but never both, FINI; and for one key no group is called
   twice, lower groups first for INIT, NO_ARGS and ERROR, higher ones first for the others.
   */
  lemma CallsInOrder(env: Env, visible: Visible, steps: nat, i: nat, j: nat)
    requires Lawful(env) && Parse(env, visible, steps).Some?
    requires i < j < |Parse(env, visible, steps).value.trace|
    ensures var trace := Parse(env, visible, steps).value.trace; Precedes(trace[i], trace[j])
  {
    RunsInPhases(env, visible, steps);
    var out := Parse(env, visible, steps).value;
    hide Parse, Lawful, PhasesOk, Precedes, Swept, Finish, Tied;
    if Finish(env, visible, steps).None? {
      SweptOrdered(env, Upward(|env.tables.groups|), INIT, out.trace, 0);
    } else {
      var ph :| PhasesOf(env, visible, steps, out, ph);
      PhasesOrdered(env, out, ph);
    }
  }

  // ---- who is told what ----

  predicate Told(trace: seq<Event>, g: nat, key: int) {
    exists i :: 0 <= i < |trace| && trace[i].Called? && trace[i].group == g && trace[i].key == key
  }

  lemma CompleteTells(env: Env, order: seq<nat>, key: int, x: seq<Event>, g: nat)
    requires Complete(env, order, key, x) && g in order && env.tables.groups[g].hasParser
    ensures Told(x, g, key)
  {
    WithParserKeeps(env, order);
    var w := WithParser(env, order);
    var i :| 0 <= i < |w| && w[i] == g;
    assert x[i].group == g;
  }

  lemma SweptComplete(env: Env, order: seq<nat>, key: int, x: seq<Event>)
    requires Swept(env, order, key, x) && LastErr(x) == 0
    ensures Complete(env, order, key, x)
  {
    var w := WithParser(env, order);
    assert w[..|x|] == w;
  }

  lemma ToldWithin(x: seq<Event>, y: seq<Event>, z: seq<Event>, g: nat, key: int)
    requires Told(y, g, key)
    ensures Told(x + (y + z), g, key)
  {
    var i :| 0 <= i < |y| && y[i].Called? && y[i].group == g && y[i].key == key;
    assert (x + (y + z))[|x| + i] == y[i];
  }

  /** Which phase holds the news. */
  lemma ToldInPhases(env: Env, out: Outcome, ph: Phases, g: nat, key: int)
    requires PhasesOk(env, out, ph)
    requires Told(ph.init, g, key) || Told(ph.verdict, g, key) || Told(ph.fini, g, key)
    ensures Told(out.trace, g, key)
  {
    hide Swept, Complete, Routed, Concluding, NotConcluding, Closing, LastErr, Told;
    var late := ph.verdict + ph.fini;
    var early := ph.init + (ph.body + (ph.noArgs + ph.end));
    assert out.trace == early + late;
    if Told(ph.init, g, key) {
      var rest := ph.body + (ph.noArgs + (ph.end + late));
      ToldWithin([], ph.init, rest, g, key);
      assert [] + (ph.init + rest) == out.trace;
    } else if Told(ph.verdict, g, key) {
      ToldWithin(early, ph.verdict, ph.fini, g, key);
    } else {
      ToldWithin(early + ph.verdict, ph.fini, [], g, key);
      assert (early + ph.verdict) + (ph.fini + []) == out.trace;
    }
  }

  lemma PhasesTell(env: Env, out: Outcome, ph: Phases, g: nat)
    requires PhasesOk(env, out, ph) && g < |env.tables.groups| && env.tables.groups[g].hasParser
    ensures Told(out.trace, g, INIT) && Told(out.trace, g, FINI)
    ensures out.err == 0 ==> Told(out.trace, g, SUCCESS)
    ensures Told(out.trace, g, SUCCESS) || Told(out.trace, g, ERROR) || out.err != 0
  {
    var n := |env.tables.groups|;
    hide Swept, Complete, Told, Concluding, NotConcluding, Routed;
    assert Upward(n)[g] == g && Downward(n)[n - 1 - g] == g;
    SweptComplete(env, Upward(n), INIT, ph.init);
    CompleteTells(env, Upward(n), INIT, ph.init, g);
    CompleteTells(env, Downward(n), FINI, ph.fini, g);
    ToldInPhases(env, out, ph, g, INIT);
    ToldInPhases(env, out, ph, g, FINI);
    if ph.settled != 0 {
      CompleteTells(env, Upward(n), ERROR, ph.verdict, g);
      ToldInPhases(env, out, ph, g, ERROR);
    } else if out.err == 0 {
      SweptComplete(env, Downward(n), SUCCESS, ph.verdict);
      CompleteTells(env, Downward(n), SUCCESS, ph.verdict, g);
      ToldInPhases(env, out, ph, g, SUCCESS);
    }
  }

  /**
   Every parser that exists is initialized and, unless one refuses that, finished; all are
   told SUCCESS if the run succeeds.
   */
  lemma EveryoneIsTold(env: Env, visible: Visible, steps: nat, g: nat)
    requires Lawful(env) && Parse(env, visible, steps).Some?
    requires g < |env.tables.groups| && env.tables.groups[g].hasParser
    ensures var out := Parse(env, visible, steps).value;
      && (Refused(env, out) || (Told(out.trace, g, INIT) && Told(out.trace, g, FINI)))
      && (out.err == 0 ==> Told(out.trace, g, SUCCESS))
  {
    RunsInPhases(env, visible, steps);
    var out := Parse(env, visible, steps).value;
    hide Parse, Lawful, Told, Finish, Tied;
    if !Refused(env, out) {
      var ph :| PhasesOf(env, visible, steps, out, ph);
      PhasesTell(env, out, ph, g);
    }
  }

  /** The error returned is never the internal EBADKEY; ERROR is announced only when there is one. */
  lemma ErrorIsPublic(env: Env, visible: Visible, steps: nat, g: nat)
    requires Lawful(env) && Parse(env, visible, steps).Some?
    ensures var out := Parse(env, visible, steps).value;
      out.err != EBADKEY && (Told(out.trace, g, ERROR) ==> out.err != 0)
  {
    RunsInPhases(env, visible, steps);
    var out := Parse(env, visible, steps).value;
    hide Finish, Tied;
    if !Refused(env, out) && out.err == 0 {
      var ph :| PhasesOf(env, visible, steps, out, ph);
      hide Parse, Lawful, WithParser;
      NoError(env, out, ph, g);
    }
  }

  lemma NoError(env: Env, out: Outcome, ph: Phases, g: nat)
    requires PhasesOk(env, out, ph) && out.err == 0
    ensures !Told(out.trace, g, ERROR)
  {
    hide WithParser, Target, LastErr, IdleGroups;
    assert ph.settled == 0;
    assert forall i :: 0 <= i < |ph.verdict| ==> ph.verdict[i].key == SUCCESS;
    assert forall i :: 0 <= i < |ph.fini| ==> ph.fini[i].key == FINI;
    assert forall i :: 0 <= i < |ph.init| ==> ph.init[i].key == INIT;
    BodyOrdered(env.tables, ph.body);
    ConcludingOrdered(env, ph);
    hide Swept, Complete, Ordered, Routed, Concluding, NotConcluding;
    forall x | x in out.trace ensures x.Called? ==> x.key != ERROR {
      PartOf(ph.init, ph.body, ph.noArgs, ph.end, ph.verdict, ph.fini, x);
    }
  }

  lemma PartOf(a: seq<Event>, b: seq<Event>, c: seq<Event>, d: seq<Event>, e: seq<Event>, f: seq<Event>, x: Event)
    requires x in a + (b + (c + (d + (e + f))))
    ensures x in a || x in b || x in c || x in d || x in e || x in f
  {
  }

  /** In a run refused at the start nobody gets anything but INIT, not even FINI. */
  lemma RefusedTellsInitOnly(env: Env, out: Outcome, i: nat)
    requires Refused(env, out) && i < |out.trace|
    ensures out.trace[i].Called? && out.trace[i].key == INIT && out.err != 0 && out.err != EBADKEY
  {
  }

  // ---- NO_ARGS and END ----

  lemma SweptTells(env: Env, order: seq<nat>, key: int, x: seq<Event>, g: nat)
    requires Swept(env, order, key, x) && Told(x, g, key)
    ensures g in order && env.tables.groups[g].hasParser
  {
    WithParserKeeps(env, order);
    var w := WithParser(env, order);
    hide WithParser;
    var i :| 0 <= i < |x| && x[i].Called? && x[i].group == g && x[i].key == key;
    assert w[..|x|][i] == w[i];
  }

  /** A call of NO_ARGS or END is in its phase. */
  lemma PhaseOf(env: Env, out: Outcome, ph: Phases, e: Event)
    requires PhasesOk(env, out, ph) && e in out.trace && e.Called? && (e.key == NO_ARGS || e.key == END)
    ensures e in if e.key == NO_ARGS then ph.noArgs else ph.end
  {
    var n := |env.tables.groups|;
    hide Swept, Complete, Routed, LastErr;
    BodyOrdered(env.tables, ph.body);
    ConcludingOrdered(env, ph);
    SweptOrdered(env, Upward(n), INIT, ph.init, 0);
    SweptOrdered(env, Downward(n), FINI, ph.fini, 5);
    if ph.settled == 0 {
      SweptOrdered(env, Downward(n), SUCCESS, ph.verdict, 4);
    } else {
      SweptOrdered(env, Upward(n), ERROR, ph.verdict, 4);
    }
    hide Concluding, NotConcluding, Closing, Ordered;
    PartOf(ph.init, ph.body, ph.noArgs, ph.end, ph.verdict, ph.fini, e);
    assert Rank(e) == if e.key == NO_ARGS then 2 else 3;
  }

  lemma LateCalls(env: Env, out: Outcome, ph: Phases, g: nat)
    requires PhasesOk(env, out, ph)
    ensures Told(out.trace, g, NO_ARGS) ==> Told(ph.noArgs, g, NO_ARGS)
    ensures Told(out.trace, g, END) ==> Told(ph.end, g, END)
  {
    hide PhasesOk;
    if Told(out.trace, g, NO_ARGS) {
      var i :| 0 <= i < |out.trace| && out.trace[i].Called? && out.trace[i].group == g && out.trace[i].key == NO_ARGS;
      PhaseOf(env, out, ph, out.trace[i]);
    }
    if Told(out.trace, g, END) {
      var i :| 0 <= i < |out.trace| && out.trace[i].Called? && out.trace[i].group == g && out.trace[i].key == END;
      PhaseOf(env, out, ph, out.trace[i]);
    }
  }

  /** No parser replied to this key with an error. */
  predicate AllQuiet(trace: seq<Event>, key: int) {
    forall i :: 0 <= i < |trace| && trace[i].Called? && trace[i].key == key ==> Quiet(trace[i].err)
  }

  lemma QuietPhase(env: Env, order: seq<nat>, key: int, x: seq<Event>, before: seq<Event>, after: seq<Event>)
    requires Swept(env, order, key, x) && AllQuiet(before + (x + after), key)
    ensures LastErr(x) == 0
  {
    if x != [] {
      var z := before + (x + after);
      assert z[|before| + |x| - 1] == x[|x| - 1];
    }
  }

  /**
   Who is told NO_ARGS: in every finished run only parsers for which nothing was booked, and
   only when all arguments were parsed; and then, unless one of them replies with an error, all of these.
   */
  lemma NoArgsExactly(env: Env, visible: Visible, steps: nat, g: nat)
    requires Lawful(env) && Parse(env, visible, steps).Some?
    requires g < |env.tables.groups|
    ensures var out, end := Parse(env, visible, steps).value, Finish(env, visible, steps);
      var due := end.Some? && AllParsed(end.value.0, end.value.1, end.value.2)
        && env.tables.groups[g].hasParser && !InLedger(RunLedger(env, visible, steps), g);
      && (Told(out.trace, g, NO_ARGS) ==> due)
      && (due && AllQuiet(out.trace, NO_ARGS) ==> Told(out.trace, g, NO_ARGS))
  {
    RunsInPhases(env, visible, steps);
    var out, end := Parse(env, visible, steps).value, Finish(env, visible, steps);
    hide Parse;
    if end.None? {
      NoneTold(env, out, g);
    } else {
      CountersAreBooked(env, visible, steps, g);
      var ph :| PhasesOf(env, visible, steps, out, ph);
      hide Lawful, Finish, RunLedger, AllParsed;
      IdleTold(env, out, ph, g);
    }
  }

  lemma NoneTold(env: Env, out: Outcome, g: nat)
    requires Refused(env, out)
    ensures !Told(out.trace, g, NO_ARGS) && !Told(out.trace, g, END)
  {
    hide WithParser, LastErr;
  }

  lemma IdleTold(env: Env, out: Outcome, ph: Phases, g: nat)
    requires PhasesOk(env, out, ph) && g < |env.tables.groups| && (ph.concluded ==> |ph.processed| == |env.tables.groups|)
    ensures var due := ph.concluded && env.tables.groups[g].hasParser && ph.processed[g] == 0;
      && (Told(out.trace, g, NO_ARGS) ==> due)
      && (due && AllQuiet(out.trace, NO_ARGS) ==> Told(out.trace, g, NO_ARGS))
  {
    LateCalls(env, out, ph, g);
    hide Routed, Closing, Complete, Swept, LastErr;
    if ph.concluded {
      if Told(ph.noArgs, g, NO_ARGS) {
        SweptTells(env, ph.idle, NO_ARGS, ph.noArgs, g);
      }
      var before, after := ph.init + ph.body, ph.end + (ph.verdict + ph.fini);
      assert out.trace == before + (ph.noArgs + after);
      if g in ph.idle && env.tables.groups[g].hasParser && AllQuiet(out.trace, NO_ARGS) {
        QuietPhase(env, ph.idle, NO_ARGS, ph.noArgs, before, after);
        SweptComplete(env, ph.idle, NO_ARGS, ph.noArgs);
        CompleteTells(env, ph.idle, NO_ARGS, ph.noArgs, g);
        ToldWithin(before, ph.noArgs, after, g, NO_ARGS);
      }
    }
  }

  /** If END was reached, no reply to NO_ARGS was an error. */
  lemma NoArgsWereQuiet(env: Env, out: Outcome, ph: Phases)
    requires PhasesOk(env, out, ph) && ph.concluded && LastErr(ph.noArgs) == 0
    ensures AllQuiet(out.trace, NO_ARGS)
  {
    forall i | 0 <= i < |out.trace| && out.trace[i].Called? && out.trace[i].key == NO_ARGS ensures Quiet(out.trace[i].err) {
      PhaseOf(env, out, ph, out.trace[i]);
      var k :| 0 <= k < |ph.noArgs| && ph.noArgs[k] == out.trace[i];
      assert k < |ph.noArgs| - 1 ==> Quiet(ph.noArgs[k].err);
    }
  }

  /** END goes out only when all arguments were parsed; and then, unless NO_ARGS or END meets an error, to every parser. */
  lemma EndExactly(env: Env, visible: Visible, steps: nat, g: nat)
    requires Lawful(env) && Parse(env, visible, steps).Some?
    requires g < |env.tables.groups|
    ensures var out, end := Parse(env, visible, steps).value, Finish(env, visible, steps);
      var due := end.Some? && AllParsed(end.value.0, end.value.1, end.value.2) && env.tables.groups[g].hasParser;
      && (Told(out.trace, g, END) ==> due && AllQuiet(out.trace, NO_ARGS))
      && (due && AllQuiet(out.trace, NO_ARGS) && AllQuiet(out.trace, END) ==> Told(out.trace, g, END))
  {
    RunsInPhases(env, visible, steps);
    var out, end := Parse(env, visible, steps).value, Finish(env, visible, steps);
    hide Parse, Lawful;
    if end.None? {
      NoneTold(env, out, g);
    } else {
      var ph :| PhasesOf(env, visible, steps, out, ph);
      hide Finish, AllParsed;
      EndTold(env, out, ph, g);
    }
  }

  lemma EndTold(env: Env, out: Outcome, ph: Phases, g: nat)
    requires PhasesOk(env, out, ph) && g < |env.tables.groups|
    ensures var due := ph.concluded && env.tables.groups[g].hasParser;
      && (Told(out.trace, g, END) ==> due && AllQuiet(out.trace, NO_ARGS))
      && (due && AllQuiet(out.trace, NO_ARGS) && AllQuiet(out.trace, END) ==> Told(out.trace, g, END))
  {
    LateCalls(env, out, ph, g);
    var n := |env.tables.groups|;
    hide Routed, Closing, Complete, Swept, LastErr;
    if ph.concluded {
      var before, after := ph.init + ph.body, ph.end + (ph.verdict + ph.fini);
      assert out.trace == before + (ph.noArgs + after);
      if Told(ph.end, g, END) {
        SweptTells(env, Downward(n), END, ph.end, g);
        NoArgsWereQuiet(env, out, ph);
      }
      var early := before + ph.noArgs;
      assert out.trace == early + (ph.end + (ph.verdict + ph.fini));
      if env.tables.groups[g].hasParser && AllQuiet(out.trace, NO_ARGS) && AllQuiet(out.trace, END) {
        QuietPhase(env, ph.idle, NO_ARGS, ph.noArgs, before, after);
        QuietPhase(env, Downward(n), END, ph.end, early, ph.verdict + ph.fini);
        SweptComplete(env, Downward(n), END, ph.end);
        assert Downward(n)[n - 1 - g] == g;
        CompleteTells(env, Downward(n), END, ph.end, g);
        ToldWithin(early, ph.end, ph.verdict + ph.fini, g, END);
      }
    }
  }

  // ---- the index of the first argument left ----

  /**
   A caller that asks for it gets the position at which the run left off, exactly if the parse
   loop ended for want of something to parse: where the passes of NO_ARGS and END left it if
   all arguments were parsed, and otherwise where the loop did. A caller that does not ask
   is told of success only if all arguments were parsed.
   */
  lemma EndIndexExactly(env: Env, visible: Visible, steps: nat)
    requires Lawful(env) && Parse(env, visible, steps).Some?
    ensures var out, end := Parse(env, visible, steps).value, Finish(env, visible, steps);
      && (out.endIndex.Some? <==> env.wantsEnd && end.Some? && end.value.1 == EBADKEY && end.value.2)
      && (out.endIndex.Some? ==>
            var st := end.value.0;
            && Sized(env, st)
            && out.endIndex.value
               == if AllParsed(st, end.value.1, end.value.2) then Conclude(env, st).0.visible.next else st.visible.next)
      && (out.err == 0 && !env.wantsEnd ==> end.Some? && AllParsed(end.value.0, end.value.1, end.value.2))
  {
    var out, end := Parse(env, visible, steps).value, Finish(env, visible, steps);
    var st0 := State([], seq(|env.tables.groups|, _ => 0), visible, true);
    var (st1, err1) := Initialize(env, st0);
    InitSized(env, st0);
    if err1 == 0 {
      AllSized(env, st1, false, steps);
      var body := AllBody(env, st1, false, steps);
      hide Lawful, Initialize, ParseAll;
      var (st, err, bad) := end.value;
      assert out == Finalize(env, st, err, bad);
      EndIndexOf(env, st, err, bad);
    }
  }

  lemma EndIndexOf(env: Env, st: State, err: int, bad: bool)
    requires Sized(env, st) && err != 0
    ensures var out := Finalize(env, st, err, bad);
      && (out.endIndex.Some? <==> env.wantsEnd && err == EBADKEY && bad)
      && (out.endIndex.Some? ==>
            out.endIndex.value == if AllParsed(st, err, bad) then Conclude(env, st).0.visible.next else st.visible.next)
      && (out.err == 0 && !env.wantsEnd ==> AllParsed(st, err, bad))
  {
    hide Conclude, TellAll, Sweep;
  }

  // ---- the tables a tree is converted to ----

  /** Every long option belongs to one of the first 127 groups. */
  ghost predicate EarlyLongs(t: Tables, ds: seq<Decl>) {
    forall i :: 0 <= i < |t.longs| ==> EarlyLong(t.longs[i], Owners(t.groups), ds)
  }

  ghost predicate EarlyLong(l: LongOpt, owners: seq<ArgpHol.Path>, ds: seq<Decl>) {
    exists g: nat, key :: g < 127 && OwnedBy(l, owners, ds, g, key)
  }

  /**
   The long options of a converted tree all name one of its groups if they belong to the first
   127 groups, as they do in a tree with no more.
   */
  lemma ConvertAddressed(a: Argp, flags: Flags)
    ensures SizeOf(a).numGroups <= 127 ==> EarlyLongs(ParserConvert(a, flags), TreeOptions(a, []))
    ensures EarlyLongs(ParserConvert(a, flags), TreeOptions(a, [])) ==> Addressed(ParserConvert(a, flags))
  {
    ParserLongs(a, flags);
    hide ParserConvert, SizeOf, TreeOptions;
    var t, ds := ParserConvert(a, flags), TreeOptions(a, []);
    if SizeOf(a).numGroups <= 127 {
      FewGroups(t, ds);
    }
    if EarlyLongs(t, ds) {
      hide OwnedBy;
      forall i | 0 <= i < |t.longs| ensures 1 <= GroupKey(t.longs[i].val) <= |t.groups| {
        assert EarlyLong(t.longs[i], Owners(t.groups), ds);
        var g: nat, key :| g < 127 && OwnedBy(t.longs[i], Owners(t.groups), ds, g, key);
        AddressedAt(t.longs[i], t.groups, ds, g, key);
      }
    }
  }

  lemma FewGroups(t: Tables, ds: seq<Decl>)
    requires LongsOwned(t.longs, Owners(t.groups), ds) && |t.groups| <= 127
    ensures EarlyLongs(t, ds)
  {
    forall i | 0 <= i < |t.longs| ensures EarlyLong(t.longs[i], Owners(t.groups), ds) {
      assert LongOwned(t.longs[i], Owners(t.groups), ds);
      var g: nat, key :| OwnedBy(t.longs[i], Owners(t.groups), ds, g, key);
      assert g < 127;
    }
  }

  lemma AddressedAt(l: LongOpt, groups: seq<Group>, ds: seq<Decl>, g: nat, key: int)
    requires g < 127 && OwnedBy(l, Owners(groups), ds, g, key)
    ensures 1 <= GroupKey(l.val) <= |groups|
  {
    DecodeLong(l, Owners(groups), ds, g, key);
    hide Pack, GroupKey, UserKey, FirstDeclared;
  }

  /**
   For a tree of parsers: a parser is initialized before all that are below it, and these are
   told of the end and of success, and finished, before it.
   */
  lemma FamilyOrder(a: Argp, flags: Flags, env: Env, visible: Visible, steps: nat, i: nat, j: nat)
    requires Lawful(env) && env.tables == ParserConvert(a, flags) && Parse(env, visible, steps).Some?
    requires var trace := Parse(env, visible, steps).value.trace;
      && i < |trace| && j < |trace| && trace[i].Called? && trace[j].Called?
      && trace[i].key == trace[j].key && Rank(trace[i]) != 1
      && trace[i].group < |env.tables.groups| && trace[j].group < |env.tables.groups|
      && env.tables.groups[trace[i].group].owner < env.tables.groups[trace[j].group].owner
    ensures var trace := Parse(env, visible, steps).value.trace;
      if ParentsFirst(trace[i].key) then i < j else j < i
  {
    FamilyLinked(a, flags);
    hide Parse, ParserConvert, Lawful, Linked;
    if i < j {
      CallsInOrder(env, visible, steps, i, j);
    } else if j < i {
      CallsInOrder(env, visible, steps, j, i);
    }
  }
}
