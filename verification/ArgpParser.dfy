/**
 The parse loop as the code runs it: one structure updated by every call, passes over the
 groups in both directions. Every method is proved to do what `ArgpProtocol` specifies.
 */
module ArgpParser {
  import opened Options
  import opened ArgpPack
  import opened ArgpTables
  import P = ArgpProtocol

  class Parser {
    const env: P.Env
    const processed: array<nat>
    var trace: seq<P.Event>
    var visible: P.Visible
    var tryGetopt: bool

    ghost predicate Valid() {
      processed.Length == |env.tables.groups| && P.Lawful(env)
    }

    ghost function Counts(): (counts: seq<nat>)
      reads processed
      ensures |counts| == processed.Length
    {
      processed[..]
    }

    ghost function View(): P.State
      reads this, processed
    {
      P.State(trace, Counts(), visible, tryGetopt)
    }

    constructor (env: P.Env, visible: P.Visible)
      requires P.Lawful(env)
      ensures Valid() && fresh(processed) && this.env == env
      ensures View() == P.State([], seq(|env.tables.groups|, _ => 0), visible, true)
    {
      this.env, this.visible, tryGetopt, trace := env, visible, true, [];
      processed := new nat[|env.tables.groups|](_ => 0);
    }

    /** `group_parse`. */
    method GroupParse(g: nat, key: int) returns (err: int)
      requires Valid() && g < processed.Length
      modifies this
      ensures (View(), err) == P.GroupParse(env, old(View()), g, key)
    {
      if env.tables.groups[g].hasParser {
        var r := env.user(trace, g, key, visible);
        trace := trace + [P.Called(g, key, r.err)];
        visible := r.visible;
        return r.err;
      }
      err := P.EBADKEY;
    }

    /** A pass over all groups, first to last, until one reports an error. */
    method SweepUp(key: int) returns (err: int)
      requires Valid()
      modifies this
      ensures (View(), err) == P.Sweep(env, old(View()), P.Upward(processed.Length), key, 0)
    {
      err := 0;
      var g, n := 0, processed.Length;
      ghost var order := P.Upward(n);
      ghost var target := P.Sweep(env, View(), order, key, 0);
      assert order[0..] == order;
      hide P.GroupParse;
      while g < n && P.Quiet(err)
        invariant g <= n && P.Sweep(env, View(), order[g..], key, err) == target
        decreases n - g
      {
        assert order[g..][0] == g && order[g..][1..] == order[g + 1..];
        err := GroupParse(g, key);
        g := g + 1;
      }
    }

    /** A pass over all groups, last to first, until one reports an error. */
    method SweepDown(key: int, err0: int) returns (err: int)
      requires Valid()
      modifies this
      ensures (View(), err) == P.Sweep(env, old(View()), P.Downward(processed.Length), key, err0)
    {
      err := err0;
      var n := processed.Length;
      var g := n - 1;
      ghost var order := P.Downward(n);
      ghost var target := P.Sweep(env, View(), order, key, err0);
      assert order[0..] == order;
      hide P.GroupParse;
      while g >= 0 && P.Quiet(err)
        invariant -1 <= g < n && P.Sweep(env, View(), order[n - 1 - g..], key, err) == target
        decreases g
      {
        assert order[n - 1 - g..][0] == g && order[n - 1 - g..][1..] == order[n - g..];
        err := GroupParse(g, key);
        g := g - 1;
      }
    }

    /** The pass for NO_ARGS, which leaves out groups that handled arguments. */
    method SweepIdle() returns (err: int)
      requires Valid()
      modifies this
      ensures (View(), err) == P.Sweep(env, old(View()), P.Idle(processed[..], 0), P.NO_ARGS, 0)
    {
      err := 0;
      var g, n := 0, processed.Length;
      ghost var done := processed[..];
      ghost var target := P.Sweep(env, View(), P.Idle(done, 0), P.NO_ARGS, 0);
      hide P.GroupParse, P.Sweep, P.Idle;
      while g < n && P.Quiet(err)
        invariant g <= n && P.Sweep(env, View(), P.Idle(done, g), P.NO_ARGS, err) == target
        decreases n - g
      {
        IdleStep(env, View(), done, g, err);
        if processed[g] == 0 {
          err := GroupParse(g, P.NO_ARGS);
        }
        g := g + 1;
      }
      SweepEnds(env, View(), P.Idle(done, g), P.NO_ARGS, err);
    }

    /** `parser_init`'s calls, and the adjustment for a missing program name. */
    method Initialize() returns (err: int)
      requires Valid()
      modifies this
      ensures (View(), err) == P.Initialize(env, old(View()))
    {
      hide P.Sweep, P.Upward;
      err := SweepUp(P.INIT);
      if err == P.EBADKEY {
        err := 0;
      }
      if err != 0 {
        return;
      }
      if visible.noErrs && visible.parseArgv0 {
        visible := visible.(argc := visible.argc + 1);
      }
    }

    /** The loop of `parser_parse_arg`; the last group asked and the key it was asked with. */
    method Offer() returns (err: int, g: nat, key: int)
      requires Valid()
      modifies this
      ensures (View(), err) == (P.Offer(env, old(View()), 0).0, P.Offer(env, old(View()), 0).1)
      ensures err != P.EBADKEY ==> g > 0 && (g - 1, key) == (P.Offer(env, old(View()), 0).2, P.Offer(env, old(View()), 0).3)
    {
      var n := processed.Length;
      ghost var target := P.Offer(env, View(), 0);
      err, g, key := P.EBADKEY, 0, 0;
      hide P.Offer, Turn, Counts;
      while g < n && err == P.EBADKEY
        invariant g <= n
        invariant err == P.EBADKEY ==> P.Offer(env, View(), g) == target
        invariant err != P.EBADKEY ==> g > 0 && (View(), err, g - 1, key) == target
        decreases n - g
      {
        OfferTurn(env, View(), g);
        err, key := TakeTurn(g);
        g := g + 1;
      }
      OfferNone(env, View());
    }

    /** One group's turn at an argument: ARG, and ARGS if it rejects that. */
    method TakeTurn(g: nat) returns (err: int, key: int)
      requires Valid() && g < processed.Length
      modifies this
      ensures (View(), err, key) == Turn(env, old(View()), g)
    {
      hide P.GroupParse, Counts;
      visible := visible.(next := visible.next + 1);
      key := P.ARG;
      err := GroupParse(g, key);
      if err == P.EBADKEY {
        visible := visible.(next := visible.next - 1);
        key := P.ARGS;
        err := GroupParse(g, key);
      }
    }

    /** `parser_parse_arg`. */
    method ParseArg() returns (err: int)
      requires Valid()
      modifies this, processed
      ensures (View(), err) == P.ParseArg(env, old(View()))
    {
      var index := visible.next - 1;
      visible := visible.(next := index);
      P.OfferSized(env, View(), 0);
      hide P.Offer;
      var g, key;
      err, g, key := Offer();
      if err == 0 {
        if key == P.ARGS {
          visible := visible.(next := visible.argc);
        }
        if visible.next > index {
          ghost var before := processed[..];
          processed[g - 1] := processed[g - 1] + (visible.next - index);
          assert processed[..] == before[g - 1 := before[g - 1] + (visible.next - index)];
        } else {
          tryGetopt := true;
        }
      }
    }

    /** `strchr` on the short-option string. */
    method StrChr(opt: int) returns (at: Option<nat>)
      ensures at == FirstIndex(env.tables.shorts, opt)
    {
      var shorts, i := env.tables.shorts, 0;
      SearchesFrom(env.tables, opt, 0);
      while i < |shorts|
        invariant i <= |shorts| && FirstFrom(shorts, opt, i) == FirstFrom(shorts, opt, 0)
      {
        if shorts[i] == opt {
          return Some(i);
        }
        i := i + 1;
      }
      at := None;
    }

    /** The short option's place in the string, and the group that place belongs to. */
    method ShortGroup(opt: int) returns (g: Option<nat>)
      ensures g == Dispatch(env.tables, opt)
    {
      hide FirstIndex;
      var at := StrChr(opt);
      if at.None? {
        return None;
      }
      var groups, i := env.tables.groups, 0;
      SearchesFrom(env.tables, opt, at.value);
      while i < |groups|
        invariant i <= |groups| && GroupFrom(groups, at.value, i) == GroupFrom(groups, at.value, 0)
      {
        if groups[i].shortEnd > at.value {
          return Some(i);
        }
        i := i + 1;
      }
      g := None;
    }

    /** `parser_parse_opt`. */
    method ParseOpt(opt: int) returns (err: int)
      requires Valid()
      requires P.Target(env.tables, opt).Some? ==> P.Target(env.tables, opt).value.0 < |env.tables.groups|
      modifies this
      ensures (View(), err) == P.ParseOpt(env, old(View()), opt)
    {
      hide Dispatch;
      var groupKey := GroupKey(opt);
      err := P.EBADKEY;
      if groupKey == 0 {
        var g := ShortGroup(opt);
        if g.Some? {
          err := GroupParse(g.value, opt);
        }
      } else if groupKey > 0 {
        err := GroupParse(groupKey - 1, UserKey(opt));
      }
    }

    /** What follows when getopt is not asked or sees no more options. */
    method PastOptions(bad0: bool) returns (err: int, bad: bool)
      requires Valid()
      modifies this, processed
      ensures (View(), err, bad) == P.PastOptions(env, old(View()), bad0)
    {
      hide P.ParseArg;
      bad := bad0;
      if visible.next >= visible.argc || visible.noArgs {
        return P.EBADKEY, true;
      }
      visible := visible.(next := visible.next + 1);
      err := ParseArg();
      if err == P.EBADKEY {
        bad := true;
      }
    }

    /** `parser_parse_next`. */
    method ParseNext(bad0: bool) returns (err: int, bad: bool)
      requires Valid()
      modifies this, processed
      ensures (View(), err, bad) == P.ParseNext(env, old(View()), bad0)
    {
      hide P.ParseArg, P.ParseOpt, P.PastOptions, P.Target, Counts;
      bad := bad0;
      if visible.quoted != 0 && visible.next < visible.quoted {
        visible := visible.(quoted := 0);
      }
      if tryGetopt && visible.quoted == 0 {
        var a := env.getopt(trace, visible);
        P.AnswerKnown(env, trace, visible);
        trace := trace + [P.Asked(a.opt)];
        visible := visible.(next := a.optind);
        if a.opt == KEY_END {
          tryGetopt := false;
          if visible.next > 1 && a.afterQuote {
            visible := visible.(quoted := visible.next);
          }
          err, bad := PastOptions(bad);
        } else if a.opt == KEY_ERR && a.optopt != KEY_END {
          return P.EBADKEY, false;
        } else if a.opt == KEY_ARG {
          err := ParseArg();
          if err == P.EBADKEY {
            bad := true;
          }
        } else {
          TargetInRange(env, a.opt);
          err := ParseOpt(a.opt);
          if err == P.EBADKEY {
            bad := false;
          }
        }
      } else {
        err, bad := PastOptions(bad);
      }
    }

    /** All groups, whatever they reply: first to last, or last to first. */
    method TellUp(key: int)
      requires Valid()
      modifies this
      ensures View() == P.TellAll(env, old(View()), P.Upward(processed.Length), key)
    {
      var g, n := 0, processed.Length;
      ghost var order := P.Upward(n);
      ghost var target := P.TellAll(env, View(), order, key);
      assert order[0..] == order;
      hide P.GroupParse;
      while g < n
        invariant g <= n && P.TellAll(env, View(), order[g..], key) == target
      {
        assert order[g..][0] == g && order[g..][1..] == order[g + 1..];
        var _ := GroupParse(g, key);
        g := g + 1;
      }
    }

    method TellDown(key: int)
      requires Valid()
      modifies this
      ensures View() == P.TellAll(env, old(View()), P.Downward(processed.Length), key)
    {
      var n := processed.Length;
      var g := n - 1;
      ghost var order := P.Downward(n);
      ghost var target := P.TellAll(env, View(), order, key);
      assert order[0..] == order;
      hide P.GroupParse;
      while g >= 0
        invariant -1 <= g < n && P.TellAll(env, View(), order[n - 1 - g..], key) == target
        decreases g
      {
        assert order[n - 1 - g..][0] == g && order[n - 1 - g..][1..] == order[n - g..];
        var _ := GroupParse(g, key);
        g := g - 1;
      }
    }

    /** `parser_finalize`. */
    method Finalize(err0: int, bad: bool) returns (err: int, end: Option<int>)
      requires Valid()
      modifies this
      ensures P.Outcome(trace, err, end) == P.Finalize(env, old(View()), err0, bad)
    {
      hide P.Sweep, P.TellAll, P.Upward, P.Downward, P.Idle;
      err, end := err0, None;
      if err == P.EBADKEY && bad {
        err := 0;
      }
      if err == 0 {
        if visible.next == visible.argc {
          err := SweepIdle();
          err := SweepDown(P.END, err);
          if err == P.EBADKEY {
            err := 0;
          }
          if env.wantsEnd {
            end := Some(visible.next);
          }
        } else if env.wantsEnd {
          end := Some(visible.next);
        } else {
          err := P.EBADKEY;
        }
      }
      if err != 0 {
        TellUp(P.ERROR);
      } else {
        err := SweepDown(P.SUCCESS, 0);
        if err == P.EBADKEY {
          err := 0;
        }
      }
      TellDown(P.FINI);
      if err == P.EBADKEY {
        err := P.EINVAL;
      }
    }
  }

  /** One group's turn in the pass for NO_ARGS. */
  ghost function Turn(env: P.Env, st: P.State, g: nat): (P.State, int, int)
    requires g < |env.tables.groups|
  {
    var (st1, err1) := P.GroupParse(env, st.(visible := st.visible.(next := st.visible.next + 1)), g, P.ARG);
    if err1 != P.EBADKEY then (st1, err1, P.ARG)
    else
      var (st2, err2) := P.GroupParse(env, st1.(visible := st1.visible.(next := st1.visible.next - 1)), g, P.ARGS);
      (st2, err2, P.ARGS)
  }

  lemma OfferTurn(env: P.Env, st: P.State, g: nat)
    requires g < |env.tables.groups|
    ensures var (st1, err, key) := Turn(env, st, g);
      P.Offer(env, st, g) == if err != P.EBADKEY then (st1, err, g, key) else P.Offer(env, st1, g + 1)
  {
    hide P.GroupParse;
  }

  lemma OfferNone(env: P.Env, st: P.State)
    ensures P.Offer(env, st, |env.tables.groups|) == (st, P.EBADKEY, |env.tables.groups|, 0)
  {
  }

  lemma IdleStep(env: P.Env, st: P.State, done: seq<nat>, g: nat, err: int)
    requires g < |done| == |env.tables.groups| && P.Quiet(err)
    ensures P.Sweep(env, st, P.Idle(done, g), P.NO_ARGS, err)
         == if done[g] == 0 then
              var (st1, err1) := P.GroupParse(env, st, g, P.NO_ARGS);
              P.Sweep(env, st1, P.Idle(done, g + 1), P.NO_ARGS, err1)
            else P.Sweep(env, st, P.Idle(done, g + 1), P.NO_ARGS, err)
  {
    hide P.GroupParse;
    if done[g] == 0 {
      assert P.Idle(done, g)[0] == g && P.Idle(done, g)[1..] == P.Idle(done, g + 1);
    } else {
      assert P.Idle(done, g) == P.Idle(done, g + 1);
    }
  }

  lemma SweepEnds(env: P.Env, st: P.State, order: seq<nat>, key: int, err: int)
    requires P.InGroups(env, order) && (order == [] || !P.Quiet(err))
    ensures P.Sweep(env, st, order, key, err) == (st, err)
  {
  }

  lemma TargetInRange(env: P.Env, opt: int)
    requires opt != KEY_END ==> GroupKey(opt) >= 0 && (GroupKey(opt) == 0 || GroupKey(opt) <= |env.tables.groups|)
    requires opt != KEY_END
    ensures P.Target(env.tables, opt).Some? ==> P.Target(env.tables, opt).value.0 < |env.tables.groups|
  {
  }

  /** `argp_parse` after the tables are built. A run of more than `steps` arguments is cut off. */
  method Parse(env: P.Env, visible: P.Visible, steps: nat) returns (out: Option<P.Outcome>)
    requires P.Lawful(env)
    ensures out == P.Parse(env, visible, steps)
  {
    var p := new Parser(env, visible);
    P.InitSized(env, p.View());
    var err := p.Initialize();
    if err != 0 {
      return Some(P.Outcome(p.trace, err, None));
    }
    ghost var target := P.ParseAll(env, p.View(), false, steps);
    P.AllSized(env, p.View(), false, steps);
    hide P.ParseNext, P.Finalize, P.Initialize;
    var bad, left := false, steps;
    while err == 0 && left > 0
      invariant p.Valid() && p.env == env && fresh(p) && fresh(p.processed)
      invariant err == 0 ==> P.ParseAll(env, p.View(), bad, left) == target
      invariant err != 0 ==> Some((p.View(), err, bad)) == target
      decreases left
    {
      err, bad := p.ParseNext(bad);
      left := left - 1;
    }
    if err == 0 {
      return None;
    }
    var end;
    err, end := p.Finalize(err, bad);
    out := Some(P.Outcome(p.trace, err, end));
  }
}
