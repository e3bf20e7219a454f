/**
 The order in which `argp_parse` calls the parsers of a tree. What parsers reply and what
 getopt answers is arbitrary: both are functions of everything that happened before.
 */
module ArgpProtocol {
  import opened Options
  import opened ArgpPack
  import opened ArgpTables

  const ARG: int := 0
  const END: int := 0x100_0001
  const NO_ARGS: int := 0x100_0002
  const INIT: int := 0x100_0003
  const SUCCESS: int := 0x100_0004
  const ERROR: int := 0x100_0005
  const ARGS: int := 0x100_0006
  const FINI: int := 0x100_0007

  const EBADKEY: int := 7
  const EINVAL: int := 22

  /** The part of the parsing state that parsers may change. */
  datatype Visible = Visible(next: int, argc: int, quoted: int, noArgs: bool, noErrs: bool, parseArgv0: bool)

  datatype Reply = Reply(err: int, visible: Visible)

  /** `afterQuote` tells whether the argument before `optind` is the quoting `--`. */
  datatype Answer = Answer(opt: int, optopt: int, optind: int, afterQuote: bool)

  datatype Event = Called(group: nat, key: int, err: int) | Asked(opt: int)

  datatype Env = Env(
    tables: Tables,
    user: (seq<Event>, nat, int, Visible) -> Reply,
    getopt: (seq<Event>, Visible) -> Answer,
    wantsEnd: bool)

  /** `processed` counts, per group, the arguments its parser handled. */
  datatype State = State(trace: seq<Event>, processed: seq<nat>, visible: Visible, tryGetopt: bool)

  /** The options getopt can report for the tables it is given. */
  predicate Known(t: Tables, opt: int) {
    opt == KEY_END || 0 < opt < 256 || exists i :: 0 <= i < |t.longs| && t.longs[i].val == opt
  }

  /** Every long option names a group. */
  predicate Addressed(t: Tables) {
    forall i :: 0 <= i < |t.longs| ==> 1 <= GroupKey(t.longs[i].val) <= |t.groups|
  }

  /** Getopt reports only what is in its tables; parsers may reply anything. */
  ghost predicate Lawful(env: Env) {
    && Addressed(env.tables)
    && forall trace, v :: Known(env.tables, env.getopt(trace, v).opt)
  }

  ghost predicate Sized(env: Env, st: State) {
    |st.processed| == |env.tables.groups|
  }

  // ---- calling parsers ----

  predicate Quiet(err: int) {
    err == 0 || err == EBADKEY
  }

  /** `group_parse`. */
  function GroupParse(env: Env, st: State, g: nat, key: int): (State, int)
    requires g < |env.tables.groups|
  {
    if env.tables.groups[g].hasParser then
      var r := env.user(st.trace, g, key, st.visible);
      (st.(trace := st.trace + [Called(g, key, r.err)], visible := r.visible), r.err)
    else (st, EBADKEY)
  }

  predicate InGroups(env: Env, order: seq<nat>) {
    forall i :: 0 <= i < |order| ==> order[i] < |env.tables.groups|
  }

  /** Calls the groups of `order` one after the other; a real error ends it. */
  function Sweep(env: Env, st: State, order: seq<nat>, key: int, err: int): (State, int)
    requires InGroups(env, order)
    decreases |order|
  {
    if order == [] || !Quiet(err) then (st, err)
    else
      var (st1, err1) := GroupParse(env, st, order[0], key);
      Sweep(env, st1, order[1..], key, err1)
  }

  /** Calls all groups of `order`, whatever they reply. */
  function TellAll(env: Env, st: State, order: seq<nat>, key: int): State
    requires InGroups(env, order)
    decreases |order|
  {
    if order == [] then st else TellAll(env, GroupParse(env, st, order[0], key).0, order[1..], key)
  }

  function Upward(n: nat): (s: seq<nat>)
    ensures |s| == n && forall i :: 0 <= i < n ==> s[i] == i
  {
    seq(n, i requires 0 <= i < n => i)
  }

  function Downward(n: nat): (s: seq<nat>)
    ensures |s| == n && forall i :: 0 <= i < n ==> s[i] == n - 1 - i
  {
    seq(n, i requires 0 <= i < n => n - 1 - i)
  }

  /** The groups from `i` on whose parsers handled no argument. */
  function Idle(processed: seq<nat>, i: nat): (s: seq<nat>)
    ensures forall k :: 0 <= k < |s| ==> s[k] < |processed|
    decreases |processed| - i
  {
    if i >= |processed| then []
    else (if processed[i] == 0 then [i] else []) + Idle(processed, i + 1)
  }

  lemma {:induction false} IdleAt(processed: seq<nat>, i: nat, k: nat)
    requires k < |Idle(processed, i)|
    ensures i <= Idle(processed, i)[k] && processed[Idle(processed, i)[k]] == 0
    decreases |processed| - i
  {
    if processed[i] != 0 {
      IdleAt(processed, i + 1, k);
    } else if k > 0 {
      IdleAt(processed, i + 1, k - 1);
    }
  }

  lemma {:induction false} IdleAhead(processed: seq<nat>, i: nat, k: nat, l: nat)
    requires k < l < |Idle(processed, i)|
    ensures Idle(processed, i)[k] < Idle(processed, i)[l]
    decreases |processed| - i
  {
    if processed[i] != 0 {
      IdleAhead(processed, i + 1, k, l);
    } else if k > 0 {
      IdleAhead(processed, i + 1, k - 1, l - 1);
    } else {
      IdleAt(processed, i + 1, l - 1);
    }
  }

  lemma {:induction false} IdleHas(processed: seq<nat>, i: nat, g: nat)
    requires i <= g < |processed| && processed[g] == 0
    ensures g in Idle(processed, i)
    decreases |processed| - i
  {
    if i < g {
      IdleHas(processed, i + 1, g);
    }
  }

  /** They are those groups and no others, in increasing order. */
  lemma IdleMeans(processed: seq<nat>)
    ensures var s := Idle(processed, 0);
      && (forall k, l :: 0 <= k < l < |s| ==> s[k] < s[l])
      && (forall g :: 0 <= g < |processed| ==> (g in s <==> processed[g] == 0))
  {
    var s := Idle(processed, 0);
    hide Idle;
    forall k | 0 <= k < |s| ensures processed[s[k]] == 0 { IdleAt(processed, 0, k); }
    forall k, l | 0 <= k < l < |s| ensures s[k] < s[l] { IdleAhead(processed, 0, k, l); }
    forall g | 0 <= g < |processed| ensures g in s <==> processed[g] == 0 {
      if processed[g] == 0 {
        IdleHas(processed, 0, g);
      }
    }
  }

  // ---- one argument or option ----

  /** The groups' turns at a non-option argument: ARG, and ARGS for those that reject it. */
  function Offer(env: Env, st: State, g: nat): (State, int, nat, int)
    requires g <= |env.tables.groups|
    decreases |env.tables.groups| - g
  {
    if g == |env.tables.groups| then (st, EBADKEY, g, 0)
    else
      var (st1, err1) := GroupParse(env, st.(visible := st.visible.(next := st.visible.next + 1)), g, ARG);
      if err1 != EBADKEY then (st1, err1, g, ARG)
      else
        var (st2, err2) := GroupParse(env, st1.(visible := st1.visible.(next := st1.visible.next - 1)), g, ARGS);
        if err2 != EBADKEY then (st2, err2, g, ARGS) else Offer(env, st2, g + 1)
  }

  /** `parser_parse_arg`. */
  function ParseArg(env: Env, st: State): (r: (State, int))
    requires Sized(env, st)
    ensures Sized(env, r.0)
  {
    var index := st.visible.next - 1;
    var (st1, err, g, key) := Offer(env, st.(visible := st.visible.(next := index)), 0);
    OfferSized(env, st.(visible := st.visible.(next := index)), 0);
    if err != 0 then (st1, err)
    else
      var v := if key == ARGS then st1.visible.(next := st1.visible.argc) else st1.visible;
      if v.next > index then
        (st1.(visible := v, processed := st1.processed[g := st1.processed[g] + (v.next - index)]), 0)
      else (st1.(visible := v, tryGetopt := true), 0)
  }

  /** The group and key an option stands for. */
  function Target(t: Tables, opt: int): Option<(nat, int)> {
    var g := GroupKey(opt);
    if g == 0 then match Dispatch(t, opt) case None => None case Some(i) => Some((i, opt))
    else if g > 0 then Some((g - 1, UserKey(opt)))
    else None
  }

  /** `parser_parse_opt`. */
  function ParseOpt(env: Env, st: State, opt: int): (State, int)
    requires Target(env.tables, opt).Some? ==> Target(env.tables, opt).value.0 < |env.tables.groups|
  {
    match Target(env.tables, opt)
    case None => (st, EBADKEY)
    case Some((g, key)) => GroupParse(env, st, g, key)
  }

  /** What is left of one call of `parser_parse_next` when getopt sees no more options. */
  function PastOptions(env: Env, st: State, bad: bool): (r: (State, int, bool))
    requires Sized(env, st)
    ensures Sized(env, r.0)
  {
    if st.visible.next >= st.visible.argc || st.visible.noArgs then (st, EBADKEY, true)
    else
      var (st1, err) := ParseArg(env, st.(visible := st.visible.(next := st.visible.next + 1)));
      (st1, err, if err == EBADKEY then true else bad)
  }

  /** `parser_parse_next`; `bad` is `*arg_ebadkey`. */
  function ParseNext(env: Env, st: State, bad: bool): (r: (State, int, bool))
    requires Sized(env, st) && Lawful(env)
    ensures Sized(env, r.0)
  {
    var q := st.visible.quoted;
    var st0 := if q != 0 && st.visible.next < q then st.(visible := st.visible.(quoted := 0)) else st;
    if st0.tryGetopt && st0.visible.quoted == 0 then
      var a := env.getopt(st0.trace, st0.visible);
      AnswerKnown(env, st0.trace, st0.visible);
      var st1 := st0.(trace := st0.trace + [Asked(a.opt)], visible := st0.visible.(next := a.optind));
      if a.opt == KEY_END then
        var v := if a.optind > 1 && a.afterQuote then st1.visible.(quoted := a.optind) else st1.visible;
        PastOptions(env, st1.(tryGetopt := false, visible := v), bad)
      else if a.opt == KEY_ERR && a.optopt != KEY_END then (st1, EBADKEY, false)
      else if a.opt == KEY_ARG then
        var (st2, err) := ParseArg(env, st1);
        (st2, err, if err == EBADKEY then true else bad)
      else
        var (st2, err) := ParseOpt(env, st1, a.opt);
        (st2, err, if err == EBADKEY then false else bad)
    else PastOptions(env, st0, bad)
  }

  // ---- a whole run ----

  /** The first calls; the error is what `parser_init` returns. */
  function Initialize(env: Env, st: State): (State, int) {
    var (st1, err) := Sweep(env, st, Upward(|env.tables.groups|), INIT, 0);
    if !Quiet(err) then (st1, err)
    else
      var v := st1.visible;
      (if v.noErrs && v.parseArgv0 then st1.(visible := v.(argc := v.argc + 1)) else st1, 0)
  }

  /** At most `steps` arguments; None if that does not come to an end. */
  function ParseAll(env: Env, st: State, bad: bool, steps: nat): Option<(State, int, bool)>
    requires Sized(env, st) && Lawful(env)
    decreases steps
  {
    if steps == 0 then None
    else
      var (st1, err, bad1) := ParseNext(env, st, bad);
      if err != 0 then Some((st1, err, bad1)) else ParseAll(env, st1, bad1, steps - 1)
  }

  /** NO_ARGS and END, once everything is parsed. */
  function Conclude(env: Env, st: State): (State, int)
    requires Sized(env, st)
  {
    var (st1, err1) := Sweep(env, st, Idle(st.processed, 0), NO_ARGS, 0);
    var (st2, err2) := Sweep(env, st1, Downward(|env.tables.groups|), END, err1);
    (st2, if err2 == EBADKEY then 0 else err2)
  }

  /** SUCCESS or ERROR; a parser's reply to SUCCESS can still turn into an error. */
  function Announce(env: Env, st: State, err: int): (State, int) {
    var n := |env.tables.groups|;
    if err != 0 then (TellAll(env, st, Upward(n), ERROR), err)
    else
      var (st1, err1) := Sweep(env, st, Downward(n), SUCCESS, 0);
      (st1, if err1 == EBADKEY then 0 else err1)
  }

  /** What the caller sees: the error, and the index of the first argument left if that is set. */
  datatype Outcome = Outcome(trace: seq<Event>, err: int, endIndex: Option<int>)

  /** `parser_finalize` up to the announcement. */
  function Settle(env: Env, st: State, err: int, bad: bool): (State, int, Option<int>)
    requires Sized(env, st)
  {
    var err0 := if err == EBADKEY && bad then 0 else err;
    if err0 != 0 then (st, err0, None)
    else if st.visible.next == st.visible.argc then
      var (st1, err1) := Conclude(env, st);
      (st1, err1, if env.wantsEnd then Some(st1.visible.next) else None)
    else if env.wantsEnd then (st, 0, Some(st.visible.next))
    else (st, EBADKEY, None)
  }

  /** `parser_finalize`. */
  function Finalize(env: Env, st: State, err: int, bad: bool): Outcome
    requires Sized(env, st)
  {
    var (st1, err1, end) := Settle(env, st, err, bad);
    var (st2, err2) := Announce(env, st1, err1);
    var st3 := TellAll(env, st2, Downward(|env.tables.groups|), FINI);
    Outcome(st3.trace, if err2 == EBADKEY then EINVAL else err2, end)
  }

  /** `argp_parse` after the tables are built; None for a run of more than `steps` arguments. */
  function Parse(env: Env, visible: Visible, steps: nat): Option<Outcome>
    requires Lawful(env)
  {
    var st0 := State([], seq(|env.tables.groups|, _ => 0), visible, true);
    var (st1, err) := Initialize(env, st0);
    InitSized(env, st0);
    if err != 0 then Some(Outcome(st1.trace, err, None))
    else
      match ParseAll(env, st1, false, steps)
      case None => None
      case Some((st2, err2, bad)) =>
        AllSized(env, st1, false, steps);
        Some(Finalize(env, st2, err2, bad))
  }

  // ---- what the steps leave alone ----

  lemma AnswerKnown(env: Env, trace: seq<Event>, v: Visible)
    requires Lawful(env)
    ensures var opt := env.getopt(trace, v).opt;
      opt != KEY_END ==> GroupKey(opt) >= 0 && (GroupKey(opt) == 0 || GroupKey(opt) <= |env.tables.groups|)
  {
    assert Known(env.tables, env.getopt(trace, v).opt);
  }

  lemma {:induction false} OfferSized(env: Env, st: State, g: nat)
    requires g <= |env.tables.groups|
    ensures var (st1, err, g1, key) := Offer(env, st, g);
      st1.processed == st.processed && (err != EBADKEY ==> g1 < |env.tables.groups| && (key == ARG || key == ARGS))
    decreases |env.tables.groups| - g
  {
    if g < |env.tables.groups| {
      var (st1, err1) := GroupParse(env, st.(visible := st.visible.(next := st.visible.next + 1)), g, ARG);
      var (st2, err2) := GroupParse(env, st1.(visible := st1.visible.(next := st1.visible.next - 1)), g, ARGS);
      OfferSized(env, st2, g + 1);
    }
  }

  lemma {:induction false} SweepSized(env: Env, st: State, order: seq<nat>, key: int, err: int)
    requires InGroups(env, order)
    ensures Sweep(env, st, order, key, err).0.processed == st.processed
    decreases |order|
  {
    if order != [] && Quiet(err) {
      var (st1, err1) := GroupParse(env, st, order[0], key);
      SweepSized(env, st1, order[1..], key, err1);
    }
  }

  lemma InitSized(env: Env, st: State)
    requires Sized(env, st)
    ensures Sized(env, Initialize(env, st).0)
  {
    SweepSized(env, st, Upward(|env.tables.groups|), INIT, 0);
  }

  lemma {:induction false} AllSized(env: Env, st: State, bad: bool, steps: nat)
    requires Sized(env, st) && Lawful(env)
    ensures var r := ParseAll(env, st, bad, steps); r.Some? ==> Sized(env, r.value.0)
    decreases steps
  {
    hide ParseNext;
    if steps > 0 {
      var (st1, err, bad1) := ParseNext(env, st, bad);
      if err == 0 {
        AllSized(env, st1, bad1, steps - 1);
      }
    }
  }
}
