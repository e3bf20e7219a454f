/** The calls of every finished run come in phases, each in one direction over the groups. */
module ArgpPhases {
  import opened Options
  import opened ArgpPack
  import opened ArgpTables
  import opened ArgpProtocol

  // ---- one phase ----

  /** The groups of `order` that have a parser. */
  function WithParser(env: Env, order: seq<nat>): seq<nat>
    requires InGroups(env, order)
  {
    if order == [] then []
    else (if env.tables.groups[order[0]].hasParser then [order[0]] else []) + WithParser(env, order[1..])
  }

  predicate CallsOf(x: seq<Event>, groups: seq<nat>, key: int) {
    |x| == |groups| && forall i :: 0 <= i < |x| ==> x[i].Called? && x[i].group == groups[i] && x[i].key == key
  }

  /** Every group with a parser is called once, in order. */
  predicate Complete(env: Env, order: seq<nat>, key: int, x: seq<Event>) {
    InGroups(env, order) && CallsOf(x, WithParser(env, order), key)
  }

  /** The error a phase ends with. */
  function LastErr(x: seq<Event>): int {
    if x != [] && x[|x| - 1].Called? && !Quiet(x[|x| - 1].err) then x[|x| - 1].err else 0
  }

  /** The same, up to the first reply that is an error. */
  predicate Swept(env: Env, order: seq<nat>, key: int, x: seq<Event>) {
    && InGroups(env, order)
    && var w := WithParser(env, order);
    && |x| <= |w| && CallsOf(x, w[..|x|], key)
    && (forall i :: 0 <= i < |x| - 1 ==> Quiet(x[i].err))
    && (LastErr(x) == 0 ==> |x| == |w|)
  }

  function Norm(err: int): int {
    if Quiet(err) then 0 else err
  }

  lemma {:induction false} SweepPhase(env: Env, st: State, order: seq<nat>, key: int, err: int) returns (x: seq<Event>)
    requires InGroups(env, order) && Quiet(err)
    ensures var (st1, err1) := Sweep(env, st, order, key, err);
      st1.trace == st.trace + x && Swept(env, order, key, x) && Norm(err1) == LastErr(x)
    decreases |order|
  {
    if order == [] {
      x := [];
    } else {
      var (st1, err1) := GroupParse(env, st, order[0], key);
      if Quiet(err1) {
        var rest := SweepPhase(env, st1, order[1..], key, err1);
        if env.tables.groups[order[0]].hasParser {
          var e := Called(order[0], key, err1);
          x := [e] + rest;
          SweptCons(env, order, key, e, rest);
          Assoc(st.trace, [e], rest);
        } else {
          x := rest;
        }
      } else {
        x := [Called(order[0], key, err1)];
        SweptStop(env, order, key, err1);
      }
    }
  }

  lemma SweptStop(env: Env, order: seq<nat>, key: int, err: int)
    requires InGroups(env, order) && order != [] && env.tables.groups[order[0]].hasParser && !Quiet(err)
    ensures var x := [Called(order[0], key, err)]; Swept(env, order, key, x) && LastErr(x) == err
  {
    var w := WithParser(env, order);
    assert w[..1] == [order[0]];
  }

  lemma SweptCons(env: Env, order: seq<nat>, key: int, e: Event, rest: seq<Event>)
    requires InGroups(env, order) && order != [] && env.tables.groups[order[0]].hasParser
    requires e.Called? && e.group == order[0] && e.key == key && Quiet(e.err)
    requires Swept(env, order[1..], key, rest)
    ensures Swept(env, order, key, [e] + rest) && LastErr([e] + rest) == LastErr(rest)
  {
    var w := WithParser(env, order[1..]);
    assert WithParser(env, order) == [order[0]] + w;
    assert ([order[0]] + w)[..|rest| + 1] == [order[0]] + w[..|rest|];
  }

  lemma {:induction false} TellPhase(env: Env, st: State, order: seq<nat>, key: int) returns (x: seq<Event>)
    requires InGroups(env, order)
    ensures TellAll(env, st, order, key).trace == st.trace + x && Complete(env, order, key, x)
    decreases |order|
  {
    if order == [] {
      x := [];
    } else {
      var (st1, err1) := GroupParse(env, st, order[0], key);
      var rest := TellPhase(env, st1, order[1..], key);
      x := (if env.tables.groups[order[0]].hasParser then [Called(order[0], key, err1)] else []) + rest;
    }
  }

  // ---- between the phases ----

  /** Each call of a parser is about a non-option argument, or goes where getopt's last answer belongs. */
  predicate Routed(t: Tables, x: seq<Event>) {
    forall i :: 0 <= i < |x| ==> RoutedAt(t, x, i)
  }

  predicate RoutedAt(t: Tables, x: seq<Event>, i: nat)
    requires i < |x|
  {
    x[i].Called? ==>
      x[i].key == ARG || x[i].key == ARGS
      || (i > 0 && x[i - 1].Asked? && Target(t, x[i - 1].opt) == Some((x[i].group, x[i].key)))
  }

  /** A parser accepted a non-option argument. */
  predicate Took(x: seq<Event>, g: nat) {
    exists i :: 0 <= i < |x| && (x[i] == Called(g, ARG, 0) || x[i] == Called(g, ARGS, 0))
  }

  predicate StepOk(env: Env, st: State, st1: State, x: seq<Event>, err: int) {
    && st1.trace == st.trace + x && Routed(env.tables, x)
    && |st1.processed| == |st.processed|
    && (forall g :: 0 <= g < |st.processed| && st1.processed[g] != st.processed[g] ==> Took(x, g))
    && (!Quiet(err) ==> LastErr(x) == err)
  }

  predicate ArgCalls(x: seq<Event>) {
    forall i :: 0 <= i < |x| ==> x[i].Called? && (x[i].key == ARG || x[i].key == ARGS)
  }

  function CallIf(env: Env, g: nat, key: int, err: int): seq<Event>
    requires g < |env.tables.groups|
  {
    if env.tables.groups[g].hasParser then [Called(g, key, err)] else []
  }

  lemma Assoc(a: seq<Event>, b: seq<Event>, c: seq<Event>)
    ensures (a + b) + c == a + (b + c)
  {
  }

  lemma {:induction false} OfferBody(env: Env, st: State, g: nat) returns (x: seq<Event>)
    requires g <= |env.tables.groups|
    ensures var (st1, err, g1, key) := Offer(env, st, g);
      && st1.trace == st.trace + x && ArgCalls(x)
      && (err != EBADKEY ==> x != [] && x[|x| - 1] == Called(g1, key, err))
    decreases |env.tables.groups| - g
  {
    if g == |env.tables.groups| {
      x := [];
    } else {
      var (st1, err1) := GroupParse(env, st.(visible := st.visible.(next := st.visible.next + 1)), g, ARG);
      x := CallIf(env, g, ARG, err1);
      if err1 == EBADKEY {
        var (st2, err2) := GroupParse(env, st1.(visible := st1.visible.(next := st1.visible.next - 1)), g, ARGS);
        Assoc(st.trace, x, CallIf(env, g, ARGS, err2));
        x := x + CallIf(env, g, ARGS, err2);
        if err2 == EBADKEY {
          var rest := OfferBody(env, st2, g + 1);
          Assoc(st.trace, x, rest);
          x := x + rest;
        }
      }
    }
  }

  lemma ArgBody(env: Env, st: State) returns (x: seq<Event>)
    requires Sized(env, st)
    ensures var (st1, err) := ParseArg(env, st); StepOk(env, st, st1, x, err)
  {
    var st0 := st.(visible := st.visible.(next := st.visible.next - 1));
    OfferSized(env, st0, 0);
    x := OfferBody(env, st0, 0);
    hide Offer;
    var (st1, err, g, key) := Offer(env, st0, 0);
    if err == 0 {
      assert Took(x, g);
    }
  }

  lemma NoCalls(env: Env, st: State, st1: State, err: int)
    requires st1.trace == st.trace && st1.processed == st.processed && Quiet(err)
    ensures StepOk(env, st, st1, [], err)
  {
  }

  lemma PastBody(env: Env, st: State, bad: bool) returns (x: seq<Event>)
    requires Sized(env, st)
    ensures var (st1, err, bad1) := PastOptions(env, st, bad); StepOk(env, st, st1, x, err)
  {
    hide ParseArg;
    if st.visible.next >= st.visible.argc || st.visible.noArgs {
      x := [];
      NoCalls(env, st, st, EBADKEY);
    } else {
      x := ArgBody(env, st.(visible := st.visible.(next := st.visible.next + 1)));
    }
  }

  /** A step that starts with an answer of getopt. */
  lemma AskedFirst(env: Env, st: State, st0: State, st1: State, opt: int, x: seq<Event>, err: int)
    requires st0.trace == st.trace + [Asked(opt)] && st0.processed == st.processed
    requires StepOk(env, st0, st1, x, err)
    ensures StepOk(env, st, st1, [Asked(opt)] + x, err)
  {
    var y := [Asked(opt)] + x;
    forall g | 0 <= g < |st.processed| && st1.processed[g] != st.processed[g] ensures Took(y, g) {
      assert Took(x, g);
      var i :| 0 <= i < |x| && (x[i] == Called(g, ARG, 0) || x[i] == Called(g, ARGS, 0));
      assert y[i + 1] == x[i];
    }
    forall i | 0 <= i < |y| ensures RoutedAt(env.tables, y, i) {
      if i > 0 {
        assert RoutedAt(env.tables, x, i - 1);
        assert i > 1 ==> y[i - 1] == x[i - 2];
      }
    }
  }

  lemma OptBody(env: Env, st: State, opt: int) returns (x: seq<Event>)
    requires Target(env.tables, opt).Some? ==> Target(env.tables, opt).value.0 < |env.tables.groups|
    ensures var (st1, err) := ParseOpt(env, st, opt);
      && st1.trace == st.trace + x && st1.processed == st.processed && Routed(env.tables, [Asked(opt)] + x)
      && (!Quiet(err) ==> LastErr(x) == err)
  {
    hide Target;
    match Target(env.tables, opt)
    case None =>
      x := [];
    case Some((g, key)) =>
      var (st1, err) := GroupParse(env, st, g, key);
      x := CallIf(env, g, key, err);
  }

  lemma NextBody(env: Env, st: State, bad: bool) returns (x: seq<Event>)
    requires Sized(env, st) && Lawful(env)
    ensures var (st1, err, bad1) := ParseNext(env, st, bad); StepOk(env, st, st1, x, err)
  {
    var q := st.visible.quoted;
    var st0 := if q != 0 && st.visible.next < q then st.(visible := st.visible.(quoted := 0)) else st;
    if st0.tryGetopt && st0.visible.quoted == 0 {
      x := AskBody(env, st0, bad);
      var a := env.getopt(st0.trace, st0.visible);
    } else {
      x := PastBody(env, st0, bad);
      hide PastOptions;
    }
  }

  /** The same when getopt is asked. */
  lemma AskBody(env: Env, st: State, bad: bool) returns (x: seq<Event>)
    requires Sized(env, st) && Lawful(env) && st.tryGetopt && st.visible.quoted == 0
    ensures var (st1, err, bad1) := ParseNext(env, st, bad); StepOk(env, st, st1, x, err)
  {
    hide ParseArg, ParseOpt, PastOptions, StepOk;
    var a := env.getopt(st.trace, st.visible);
    AnswerKnown(env, st.trace, st.visible);
    hide Lawful;
    var st1 := st.(trace := st.trace + [Asked(a.opt)], visible := st.visible.(next := a.optind));
    if a.opt == KEY_END {
      var v := if a.optind > 1 && a.afterQuote then st1.visible.(quoted := a.optind) else st1.visible;
      var st2 := st1.(tryGetopt := false, visible := v);
      var y := PastBody(env, st2, bad);
      AskedFirst(env, st, st2, PastOptions(env, st2, bad).0, a.opt, y, PastOptions(env, st2, bad).1);
      x := [Asked(a.opt)] + y;
    } else if a.opt == KEY_ERR && a.optopt != KEY_END {
      NoCalls(env, st1, st1, EBADKEY);
      AskedFirst(env, st, st1, st1, a.opt, [], EBADKEY);
      x := [Asked(a.opt)] + [];
    } else if a.opt == KEY_ARG {
      var y := ArgBody(env, st1);
      AskedFirst(env, st, st1, ParseArg(env, st1).0, a.opt, y, ParseArg(env, st1).1);
      x := [Asked(a.opt)] + y;
    } else {
      var y := OptBody(env, st1, a.opt);
      x := [Asked(a.opt)] + y;
      OptStep(env, st, ParseOpt(env, st1, a.opt).0, a.opt, y, ParseOpt(env, st1, a.opt).1);
    }
  }

  lemma OptStep(env: Env, st: State, st1: State, opt: int, y: seq<Event>, err: int)
    requires st1.trace == st.trace + [Asked(opt)] + y && st1.processed == st.processed
    requires Routed(env.tables, [Asked(opt)] + y) && (!Quiet(err) ==> LastErr(y) == err)
    ensures StepOk(env, st, st1, [Asked(opt)] + y, err)
  {
    assert st.trace + [Asked(opt)] + y == st.trace + ([Asked(opt)] + y);
  }

  lemma RoutedAppend(t: Tables, x: seq<Event>, y: seq<Event>)
    requires Routed(t, x) && Routed(t, y)
    ensures Routed(t, x + y)
  {
    var z := x + y;
    forall i | 0 <= i < |z| ensures RoutedAt(t, z, i) {
      if i >= |x| {
        assert RoutedAt(t, y, i - |x|);
        assert i > |x| ==> z[i - 1] == y[i - |x| - 1];
      } else {
        assert RoutedAt(t, x, i);
        assert i > 0 ==> z[i - 1] == x[i - 1];
      }
    }
  }

  lemma StepAppend(env: Env, st: State, st1: State, st2: State, x: seq<Event>, y: seq<Event>, err: int)
    requires StepOk(env, st, st1, x, 0) && StepOk(env, st1, st2, y, err)
    ensures StepOk(env, st, st2, x + y, err)
  {
    RoutedAppend(env.tables, x, y);
    assert st.trace + x + y == st.trace + (x + y);
    hide Routed;
    forall g | 0 <= g < |st.processed| && st2.processed[g] != st.processed[g] ensures Took(x + y, g) {
      if st1.processed[g] != st.processed[g] {
        assert Took(x, g);
        var i :| 0 <= i < |x| && (x[i] == Called(g, ARG, 0) || x[i] == Called(g, ARGS, 0));
        assert (x + y)[i] == x[i];
      } else {
        assert Took(y, g);
        var i :| 0 <= i < |y| && (y[i] == Called(g, ARG, 0) || y[i] == Called(g, ARGS, 0));
        assert (x + y)[|x| + i] == y[i];
      }
    }
  }

  lemma {:induction false} AllBody(env: Env, st: State, bad: bool, steps: nat) returns (x: seq<Event>)
    requires Sized(env, st) && Lawful(env)
    ensures var r := ParseAll(env, st, bad, steps);
      r.Some? ==> r.value.1 != 0 && StepOk(env, st, r.value.0, x, r.value.1)
    decreases steps
  {
    hide ParseNext, StepOk, Lawful;
    x := [];
    if steps > 0 {
      var (st1, err, bad1) := ParseNext(env, st, bad);
      x := NextBody(env, st, bad);
      if err == 0 {
        var y := AllBody(env, st1, bad1, steps - 1);
        var r := ParseAll(env, st1, bad1, steps - 1);
        if r.Some? {
          StepAppend(env, st, st1, r.value.0, x, y, r.value.1);
        }
        x := x + y;
      }
    }
  }

  // ---- all phases ----

  /** Where the parse loop ends, after INIT; None for a run refused there or cut off. */
  ghost function Finish(env: Env, visible: Visible, steps: nat): Option<(State, int, bool)>
    requires Lawful(env)
  {
    var st0 := State([], seq(|env.tables.groups|, _ => 0), visible, true);
    var (st1, err) := Initialize(env, st0);
    InitSized(env, st0);
    if err != 0 then None else ParseAll(env, st1, false, steps)
  }

  /** The loop ended because nothing is left to parse. */
  predicate AllParsed(st: State, err: int, bad: bool) {
    err == EBADKEY && bad && st.visible.next == st.visible.argc
  }

  /**
   A finished run: `settled` is the error when the parsers are told, `concluded` whether
   all arguments were parsed, `processed` what each parser had handled by then.
   */
  datatype Phases = Phases(
    init: seq<Event>,
    body: seq<Event>,
    concluded: bool,
    processed: seq<nat>,
    idle: seq<nat>,
    noArgs: seq<Event>,
    end: seq<Event>,
    settled: int,
    verdict: seq<Event>,
    fini: seq<Event>)

  /** In order, exactly the groups that handled no argument; the others accepted one in the body. */
  predicate IdleGroups(env: Env, idle: seq<nat>, processed: seq<nat>, body: seq<Event>) {
    && InGroups(env, idle) && (forall i, j :: 0 <= i < j < |idle| ==> idle[i] < idle[j])
    && |processed| == |env.tables.groups|
    && (forall g :: 0 <= g < |processed| ==> (g in idle <==> processed[g] == 0))
    && (forall g :: 0 <= g < |processed| && processed[g] != 0 ==> Took(body, g))
  }

  /** NO_ARGS upwards, then END downwards unless NO_ARGS met an error. */
  predicate Concluding(env: Env, ph: Phases) {
    && IdleGroups(env, ph.idle, ph.processed, ph.body)
    && Swept(env, ph.idle, NO_ARGS, ph.noArgs)
    && (if LastErr(ph.noArgs) == 0
        then Swept(env, Downward(|env.tables.groups|), END, ph.end) && ph.settled == LastErr(ph.end)
        else ph.end == [] && ph.settled == LastErr(ph.noArgs))
  }

  /** Some arguments are left, or an error was met before. */
  predicate NotConcluding(env: Env, ph: Phases) {
    && ph.noArgs == [] && ph.end == []
    && (ph.settled == 0 ==> env.wantsEnd)
    && (!Quiet(ph.settled) ==> LastErr(ph.body) == ph.settled)
  }

  /** SUCCESS downwards, or ERROR to all; then FINI to all. */
  predicate Closing(env: Env, ph: Phases, err: int) {
    var n := |env.tables.groups|;
    && (if ph.settled == 0 then Swept(env, Downward(n), SUCCESS, ph.verdict) else Complete(env, Upward(n), ERROR, ph.verdict))
    && Complete(env, Downward(n), FINI, ph.fini)
    && err == (if ph.settled == 0 then LastErr(ph.verdict) else if ph.settled == EBADKEY then EINVAL else ph.settled)
  }

  predicate PhasesOk(env: Env, out: Outcome, ph: Phases) {
    && out.trace == ph.init + (ph.body + (ph.noArgs + (ph.end + (ph.verdict + ph.fini))))
    && Swept(env, Upward(|env.tables.groups|), INIT, ph.init) && LastErr(ph.init) == 0
    && Routed(env.tables, ph.body)
    && (if ph.concluded then Concluding(env, ph) else NotConcluding(env, ph))
    && Closing(env, ph, out.err)
  }

  /** The phases of the run whose parse loop ended like this. */
  predicate Tied(env: Env, ph: Phases, st: State, err: int, bad: bool) {
    && st.trace == ph.init + ph.body
    && ph.concluded == AllParsed(st, err, bad)
    && (ph.concluded ==> ph.processed == st.processed)
    && (!ph.concluded ==> ph.settled == if err != EBADKEY || !bad then err else if env.wantsEnd then 0 else EBADKEY)
  }

  /** The phases of a run that was not refused. */
  ghost predicate PhasesOf(env: Env, visible: Visible, steps: nat, out: Outcome, ph: Phases)
    requires Lawful(env)
  {
    && PhasesOk(env, out, ph)
    && var end := Finish(env, visible, steps);
    end.Some? && Tied(env, ph, end.value.0, end.value.1, end.value.2)
  }

  /** A run that a parser refuses at the start: nobody else is told. */
  predicate Refused(env: Env, out: Outcome) {
    Swept(env, Upward(|env.tables.groups|), INIT, out.trace) && out.err == LastErr(out.trace) != 0
  }

  lemma IdleGroupsOk(env: Env, st: State, body: seq<Event>)
    requires Sized(env, st)
    requires forall g :: 0 <= g < |st.processed| && st.processed[g] != 0 ==> Took(body, g)
    ensures var idle := Idle(st.processed, 0); InGroups(env, idle) && IdleGroups(env, idle, st.processed, body)
  {
    IdleMeans(st.processed);
    hide Idle, Took;
  }

  lemma ConcludeCalls(env: Env, st: State) returns (noArgs: seq<Event>, end: seq<Event>)
    requires Sized(env, st)
    ensures var (st1, err) := Conclude(env, st); var idle := Idle(st.processed, 0);
      && st1.trace == st.trace + (noArgs + end) && Swept(env, idle, NO_ARGS, noArgs)
      && (if LastErr(noArgs) == 0 then Swept(env, Downward(|env.tables.groups|), END, end) && err == LastErr(end)
          else end == [] && err == LastErr(noArgs))
  {
    var n, idle := |env.tables.groups|, Idle(st.processed, 0);
    hide Idle;
    var (st1, err1) := Sweep(env, st, idle, NO_ARGS, 0);
    noArgs := SweepPhase(env, st, idle, NO_ARGS, 0);
    end := [];
    if Quiet(err1) {
      end := SweepPhase(env, st1, Downward(n), END, err1);
    }
    hide Swept, LastErr;
    assert st.trace + noArgs + end == st.trace + (noArgs + end);
  }

  lemma ConcludePhase(env: Env, st: State, body: seq<Event>) returns (ph: Phases)
    requires Sized(env, st)
    requires forall g :: 0 <= g < |st.processed| && st.processed[g] != 0 ==> Took(body, g)
    ensures var (st1, err) := Conclude(env, st);
      && st1.trace == st.trace + (ph.noArgs + ph.end)
      && ph.body == body && ph.settled == err && ph.concluded && ph.processed == st.processed && Concluding(env, ph)
  {
    IdleGroupsOk(env, st, body);
    hide Conclude, Idle, Took, IdleGroups, Swept, LastErr;
    var noArgs, end := ConcludeCalls(env, st);
    ph := Phases([], body, true, st.processed, Idle(st.processed, 0), noArgs, end, Conclude(env, st).1, [], []);
  }

  lemma ClosePhase(env: Env, st: State, err: int) returns (verdict: seq<Event>, fini: seq<Event>)
    ensures var (st1, err1) := Announce(env, st, err); var n := |env.tables.groups|;
      && TellAll(env, st1, Downward(n), FINI).trace == st.trace + (verdict + fini)
      && (if err == 0 then Swept(env, Downward(n), SUCCESS, verdict) else Complete(env, Upward(n), ERROR, verdict))
      && Complete(env, Downward(n), FINI, fini)
      && err1 == (if err == 0 then LastErr(verdict) else err)
  {
    var n := |env.tables.groups|;
    var (st1, err1) := Announce(env, st, err);
    if err != 0 {
      verdict := TellPhase(env, st, Upward(n), ERROR);
    } else {
      verdict := SweepPhase(env, st, Downward(n), SUCCESS, 0);
    }
    fini := TellPhase(env, st1, Downward(n), FINI);
    hide TellAll, Sweep, Swept, Complete;
    assert st.trace + verdict + fini == st.trace + (verdict + fini);
  }

  lemma SettlePhase(env: Env, st: State, err: int, bad: bool, body: seq<Event>) returns (ph: Phases)
    requires Sized(env, st) && err != 0 && (!Quiet(err) ==> LastErr(body) == err)
    requires forall g :: 0 <= g < |st.processed| && st.processed[g] != 0 ==> Took(body, g)
    ensures var (st1, err1, end) := Settle(env, st, err, bad);
      && st1.trace == st.trace + (ph.noArgs + ph.end)
      && ph.body == body && ph.settled == err1
      && (if ph.concluded then Concluding(env, ph) else NotConcluding(env, ph))
      && ph.concluded == AllParsed(st, err, bad) && (ph.concluded ==> ph.processed == st.processed)
      && (!ph.concluded ==> ph.settled == if err != EBADKEY || !bad then err else if env.wantsEnd then 0 else EBADKEY)
  {
    hide Took, Conclude, Concluding;
    var err0 := if err == EBADKEY && bad then 0 else err;
    if err0 == 0 && st.visible.next == st.visible.argc {
      ph := ConcludePhase(env, st, body);
    } else {
      var settled := if err0 != 0 then err0 else if env.wantsEnd then 0 else EBADKEY;
      ph := Phases([], body, false, [], [], [], [], settled, [], []);
      assert st.trace + ([] + []) == st.trace;
    }
  }

  lemma Regroup(i: seq<Event>, b: seq<Event>, n: seq<Event>, e: seq<Event>, v: seq<Event>, f: seq<Event>)
    ensures i + b + (n + e) + (v + f) == i + (b + (n + (e + (v + f))))
  {
  }

  lemma SamePhases(env: Env, ph: Phases, init: seq<Event>, verdict: seq<Event>, fini: seq<Event>)
    ensures var ph1 := ph.(init := init, verdict := verdict, fini := fini);
      Concluding(env, ph1) == Concluding(env, ph) && NotConcluding(env, ph1) == NotConcluding(env, ph)
  {
    hide Swept, Took;
  }

  /**
   Every finished run, whatever the parsers reply and getopt answers: it is refused at the
   start, or it goes through all the phases, as they follow from where the parse loop ended.
   */
  lemma RunsInPhases(env: Env, visible: Visible, steps: nat)
    requires Lawful(env) && Parse(env, visible, steps).Some?
    ensures var out := Parse(env, visible, steps).value;
      if Finish(env, visible, steps).None? then Refused(env, out)
      else exists ph :: PhasesOf(env, visible, steps, out, ph)
  {
    var n := |env.tables.groups|;
    var st0 := State([], seq(n, _ => 0), visible, true);
    var (st1, err1) := Initialize(env, st0);
    InitSized(env, st0);
    SweepSized(env, st0, Upward(n), INIT, 0);
    var init := SweepPhase(env, st0, Upward(n), INIT, 0);
    assert [] + init == init;
    if err1 == 0 {
      var r := ParseAll(env, st1, false, steps);
      AllSized(env, st1, false, steps);
      var body := AllBody(env, st1, false, steps);
      var (st2, err2, bad) := r.value;
      hide Lawful, ParseAll, Sweep, Swept, Settle, Announce, TellAll;
      var ph := FinalPhases(env, st1, st2, err2, bad, init, body);
      assert PhasesOf(env, visible, steps, Parse(env, visible, steps).value, ph);
    }
  }

  lemma FinalPhases(env: Env, st1: State, st2: State, err: int, bad: bool, init: seq<Event>, body: seq<Event>) returns (ph: Phases)
    requires Sized(env, st1) && (forall g :: 0 <= g < |st1.processed| ==> st1.processed[g] == 0)
    requires StepOk(env, st1, st2, body, err) && err != 0
    requires st1.trace == init && Swept(env, Upward(|env.tables.groups|), INIT, init) && LastErr(init) == 0
    ensures PhasesOk(env, Finalize(env, st2, err, bad), ph) && Tied(env, ph, st2, err, bad)
  {
    hide Settle, Announce, Swept, Complete, TellAll, Took, Routed, Concluding, NotConcluding, AllParsed;
    var ph0 := SettlePhase(env, st2, err, bad, body);
    var (st3, err3, end) := Settle(env, st2, err, bad);
    var verdict, fini := ClosePhase(env, st3, err3);
    ph := ph0.(init := init, verdict := verdict, fini := fini);
    SamePhases(env, ph0, init, verdict, fini);
    Regroup(init, body, ph.noArgs, ph.end, verdict, fini);
  }
}
