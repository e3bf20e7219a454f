/**
 The position in the argument vector: when getopt is asked, what parsers are credited with if
 they leave the position alone, and when a run fails over an option.
 */
module ArgpPositions {
  import opened ArgpPack
  import opened ArgpProtocol
  import opened ArgpPhases
  import opened ArgpLedger

  /** Parsers that change nothing of the state they are shown. */
  ghost predicate Steady(env: Env) {
    forall trace: seq<Event>, g: nat, key: int, v: Visible :: env.user(trace, g, key, v).visible == v
  }

  // ---- arguments ----

  lemma SteadyParse(env: Env, st: State, g: nat, key: int)
    requires Steady(env) && g < |env.tables.groups|
    ensures GroupParse(env, st, g, key).0.visible == st.visible && GroupParse(env, st, g, key).0.tryGetopt == st.tryGetopt
  {
  }

  /** A parser asked with ARG is shown the position behind the argument, with ARGS the argument itself. */
  lemma {:induction false} SteadyOffer(env: Env, st: State, g: nat)
    requires Steady(env) && g <= |env.tables.groups|
    ensures var (st1, err, g1, key) := Offer(env, st, g);
      && st1.tryGetopt == st.tryGetopt
      && st1.visible == st.visible.(next := if err != EBADKEY && key == ARG then st.visible.next + 1 else st.visible.next)
    decreases |env.tables.groups| - g
  {
    if g < |env.tables.groups| {
      var v := st.visible;
      var sa := st.(visible := v.(next := v.next + 1));
      SteadyParse(env, sa, g, ARG);
      var (st1, err1) := GroupParse(env, sa, g, ARG);
      var sb := st1.(visible := st1.visible.(next := st1.visible.next - 1));
      SteadyParse(env, sb, g, ARGS);
      var (st2, err2) := GroupParse(env, sb, g, ARGS);
      hide GroupParse, Steady;
      assert sb.visible == v;
      if err1 == EBADKEY && err2 == EBADKEY {
        SteadyOffer(env, st2, g + 1);
      }
    }
  }

  /** The last call of a state was this one. */
  predicate LastCall(st: State, g: nat, key: int) {
    st.trace != [] && st.trace[|st.trace| - 1] == Called(g, key, 0)
  }

  /**
   An argument at `index` with such parsers: refused by all, the position stays before it;
   accepted with ARG, the position is behind it and the parser is credited with one; accepted
   with ARGS, the position is at the end and the parser is credited with all that was left,
   getopt being asked again if that is nothing.
   */
  lemma ArgumentCredits(env: Env, st: State)
    requires Steady(env) && Sized(env, st)
    ensures var (st1, err) := ParseArg(env, st); var index, argc := st.visible.next - 1, st.visible.argc;
      && (err == EBADKEY ==> st1.visible == st.visible.(next := index) && st1.tryGetopt == st.tryGetopt && BookedArg(env, st) == [])
      && (err == 0 ==> exists g: nat :: LastCall(st1, g, ARG) || LastCall(st1, g, ARGS))
      && (forall g: nat :: err == 0 && LastCall(st1, g, ARG) ==>
            && st1.visible == st.visible.(next := index + 1) && st1.tryGetopt == st.tryGetopt
            && BookedArg(env, st) == [Booking(g, 1)])
      && (forall g: nat :: err == 0 && LastCall(st1, g, ARGS) ==>
            && st1.visible == st.visible.(next := argc) && st1.tryGetopt == (st.tryGetopt || argc <= index)
            && BookedArg(env, st) == if argc > index then [Booking(g, argc - index)] else [])
  {
    var st0 := st.(visible := st.visible.(next := st.visible.next - 1));
    hide Offer, Steady;
    OfferSized(env, st0, 0);
    SteadyOffer(env, st0, 0);
    OfferEnds(env, st0);
    var (st1, err, g, key) := Offer(env, st0, 0);
    if err == 0 {
      assert LastCall(ParseArg(env, st).0, g, key);
      hide GroupParse;
    }
  }

  lemma OfferEnds(env: Env, st: State)
    ensures var (st1, err, g, key) := Offer(env, st, 0); err == 0 ==> LastCall(st1, g, key)
  {
    var x := OfferBody(env, st, 0);
    hide Offer;
  }

  // ---- getopt ----

  /** Getopt is asked: it has not seen the end, and the position is not behind a quoting `--`. */
  predicate Asks(st: State) {
    st.tryGetopt && (st.visible.quoted == 0 || st.visible.next < st.visible.quoted)
  }

  lemma AsksNot(env: Env, st: State, bad: bool)
    requires Sized(env, st)
    ensures var st1 := PastOptions(env, st, bad).0;
      st.trace <= st1.trace && forall i :: |st.trace| <= i < |st1.trace| ==> st1.trace[i].Called?
  {
    if NextArg(st).Some? {
      var st0 := NextArg(st).value;
      ArgAsksNot(env, st0);
    }
    hide ParseArg;
  }

  lemma ArgAsksNot(env: Env, st: State)
    requires Sized(env, st)
    ensures var st1 := ParseArg(env, st).0;
      st.trace <= st1.trace && forall i :: |st.trace| <= i < |st1.trace| ==> st1.trace[i].Called?
  {
    var st0 := st.(visible := st.visible.(next := st.visible.next - 1));
    OfferSized(env, st0, 0);
    var x := OfferBody(env, st0, 0);
    hide Offer;
  }

  /** A step asks getopt, once and first, exactly if it is due; with the state as parsers left it. */
  lemma AsksExactly(env: Env, st: State, bad: bool)
    requires Sized(env, st) && Lawful(env)
    ensures var st1, n := ParseNext(env, st, bad).0, |st.trace|;
      && st.trace <= st1.trace
      && (Asks(st) <==> |st1.trace| > n && st1.trace[n].Asked?)
      && (forall i :: n < i < |st1.trace| ==> st1.trace[i].Called?)
      && (Asks(st) ==> st1.trace[n] == Asked(env.getopt(st.trace, st.visible.(quoted := 0)).opt))
  {
    var q := st.visible.quoted;
    var st0 := if q != 0 && st.visible.next < q then st.(visible := st.visible.(quoted := 0)) else st;
    if !Asks(st) {
      AsksNot(env, st0, bad);
      hide PastOptions;
    } else {
      assert st0.visible == st.visible.(quoted := 0);
      AskedStep(env, st0, bad);
      SameNext(env, st, st0, bad);
      hide ParseNext;
    }
  }

  lemma SameNext(env: Env, st: State, st0: State, bad: bool)
    requires st.visible.quoted != 0 ==> st.visible.next < st.visible.quoted
    requires Sized(env, st) && Lawful(env) && st0 == st.(visible := st.visible.(quoted := 0))
    ensures Sized(env, st0) && ParseNext(env, st, bad) == ParseNext(env, st0, bad)
  {
    hide ParseArg, ParseOpt, PastOptions, Target;
  }

  lemma AskedStep(env: Env, st: State, bad: bool)
    requires Sized(env, st) && Lawful(env) && st.tryGetopt && st.visible.quoted == 0
    ensures var st1, n := ParseNext(env, st, bad).0, |st.trace|;
      && st.trace <= st1.trace && |st1.trace| > n && st1.trace[n] == Asked(env.getopt(st.trace, st.visible).opt)
      && (forall i :: n < i < |st1.trace| ==> st1.trace[i].Called?)
  {
    var a := env.getopt(st.trace, st.visible);
    AnswerKnown(env, st.trace, st.visible);
    hide Lawful;
    var st1 := st.(trace := st.trace + [Asked(a.opt)], visible := st.visible.(next := a.optind));
    if a.opt == KEY_END {
      var v := if a.optind > 1 && a.afterQuote then st1.visible.(quoted := a.optind) else st1.visible;
      AsksNot(env, st1.(tryGetopt := false, visible := v), bad);
    } else if a.opt == KEY_ARG {
      ArgAsksNot(env, st1);
    } else if a.opt != KEY_ERR || a.optopt == KEY_END {
      OptBooks(env, st1, a.opt);
      OptAsksNot(env, st1, a.opt);
    }
    hide ParseArg, ParseOpt, PastOptions, Target;
  }

  lemma OptAsksNot(env: Env, st: State, opt: int)
    requires Target(env.tables, opt).Some? ==> Target(env.tables, opt).value.0 < |env.tables.groups|
    ensures var st1 := ParseOpt(env, st, opt).0;
      st.trace <= st1.trace && forall i :: |st.trace| <= i < |st1.trace| ==> st1.trace[i].Called?
  {
    hide Target;
  }

  // ---- options that nobody takes ----

  /** The step is about an option: getopt is asked, and answers neither the end nor an argument. */
  predicate AboutOption(env: Env, st: State) {
    Asks(st) && var opt := env.getopt(st.trace, st.visible.(quoted := 0)).opt; opt != KEY_END && opt != KEY_ARG
  }

  /** A step that ends the loop over something nobody knows: over an option, or over an argument. */
  lemma BadExactly(env: Env, st: State, bad: bool)
    requires Sized(env, st) && Lawful(env) && ParseNext(env, st, bad).1 == EBADKEY
    ensures ParseNext(env, st, bad).2 <==> !AboutOption(env, st)
  {
    var q := st.visible.quoted;
    var st0 := if q != 0 && st.visible.next < q then st.(visible := st.visible.(quoted := 0)) else st;
    assert Asks(st) ==> st0.visible == st.visible.(quoted := 0);
    AnswerKnown(env, st0.trace, st0.visible);
    hide ParseArg, ParseOpt, Target, Lawful;
  }

  lemma {:induction false} LastStep(env: Env, st: State, bad: bool, steps: nat) returns (last: State, bad1: bool)
    requires Sized(env, st) && Lawful(env) && ParseAll(env, st, bad, steps).Some?
    ensures Sized(env, last) && ParseNext(env, last, bad1) == ParseAll(env, st, bad, steps).value && ParseNext(env, last, bad1).1 != 0
    decreases steps
  {
    hide ParseNext, Lawful;
    var (st1, err, b) := ParseNext(env, st, bad);
    if err != 0 {
      last, bad1 := st, bad;
    } else {
      last, bad1 := LastStep(env, st1, b, steps - 1);
    }
  }

  /**
   A run whose parse loop ends over something that no parser takes: there is a last step, and
   if that is about an option the run fails with EINVAL.
   */
  lemma UnknownOptionFails(env: Env, visible: Visible, steps: nat) returns (last: State)
    requires Lawful(env) && Parse(env, visible, steps).Some?
    requires Finish(env, visible, steps).Some? && Finish(env, visible, steps).value.1 == EBADKEY
    ensures Sized(env, last) && exists bad :: ParseNext(env, last, bad) == Finish(env, visible, steps).value
    ensures AboutOption(env, last) <==> !Finish(env, visible, steps).value.2
    ensures AboutOption(env, last) ==> var out := Parse(env, visible, steps).value; out.err == EINVAL && out.endIndex.None?
  {
    var st0 := State([], seq(|env.tables.groups|, _ => 0), visible, true);
    var st1 := Initialize(env, st0).0;
    InitSized(env, st0);
    AllSized(env, st1, false, steps);
    var bad;
    last, bad := LastStep(env, st1, false, steps);
    BadExactly(env, last, bad);
    var (st, err, b) := Finish(env, visible, steps).value;
    hide ParseNext, ParseAll, Initialize, Lawful;
    assert Parse(env, visible, steps).value == Finalize(env, st, err, b);
    if !b {
      FailsOver(env, st);
    }
  }

  lemma FailsOver(env: Env, st: State)
    requires Sized(env, st)
    ensures var out := Finalize(env, st, EBADKEY, false); out.err == EINVAL && out.endIndex.None?
  {
    hide TellAll, Sweep, Conclude;
  }

  // ---- the start ----

  lemma {:induction false} SteadySweep(env: Env, st: State, order: seq<nat>, key: int, err: int)
    requires Steady(env) && InGroups(env, order)
    ensures Sweep(env, st, order, key, err).0.visible == st.visible
    decreases |order|
  {
    if order != [] && Quiet(err) {
      SteadyParse(env, st, order[0], key);
      var (st1, err1) := GroupParse(env, st, order[0], key);
      hide GroupParse, Steady;
      SteadySweep(env, st1, order[1..], key, err1);
    }
  }

  /** The vector is one longer exactly if its first element is to be parsed and errors are not reported. */
  lemma StartPosition(env: Env, st: State)
    requires Steady(env) && Initialize(env, st).1 == 0
    ensures var v := st.visible;
      Initialize(env, st).0.visible == v.(argc := if v.noErrs && v.parseArgv0 then v.argc + 1 else v.argc)
  {
    SteadySweep(env, st, Upward(|env.tables.groups|), INIT, 0);
    hide Sweep, Steady;
  }
}
