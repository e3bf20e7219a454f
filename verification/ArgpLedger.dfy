/** What each parser is credited with: the non-option arguments it took, as the loop books them. */
module ArgpLedger {
  import opened Options
  import opened ArgpPack
  import opened ArgpProtocol
  import opened ArgpPhases

  /** A parser took this many arguments at once. */
  datatype Booking = Booking(group: nat, amount: nat)

  /** The state in which an argument is handed to the parsers once options are over, if there is one. */
  function NextArg(st: State): Option<State> {
    if st.visible.next >= st.visible.argc || st.visible.noArgs then None
    else Some(st.(visible := st.visible.(next := st.visible.next + 1)))
  }

  /** The same for any step of the loop; None for a step that is about an option. */
  function ArgOf(env: Env, st: State): Option<State> {
    var q := st.visible.quoted;
    var st0 := if q != 0 && st.visible.next < q then st.(visible := st.visible.(quoted := 0)) else st;
    if !st0.tryGetopt || st0.visible.quoted != 0 then NextArg(st0)
    else
      var a := env.getopt(st0.trace, st0.visible);
      var st1 := st0.(trace := st0.trace + [Asked(a.opt)], visible := st0.visible.(next := a.optind));
      if a.opt == KEY_ARG then Some(st1)
      else if a.opt == KEY_END then
        var v := if a.optind > 1 && a.afterQuote then st1.visible.(quoted := a.optind) else st1.visible;
        NextArg(st1.(tryGetopt := false, visible := v))
      else None
  }

  /** An accepted argument is booked with what the position has moved by, unless it moved back. */
  function BookedArg(env: Env, st: State): seq<Booking> {
    var index := st.visible.next - 1;
    var (st1, err, g, key) := Offer(env, st.(visible := st.visible.(next := index)), 0);
    var next := if key == ARGS then st1.visible.argc else st1.visible.next;
    if err == 0 && next > index then [Booking(g, next - index)] else []
  }

  function Booked(env: Env, st: State): seq<Booking> {
    match ArgOf(env, st) case None => [] case Some(at) => BookedArg(env, at)
  }

  /** All bookings of a parse loop. */
  ghost function Ledger(env: Env, st: State, bad: bool, steps: nat): seq<Booking>
    requires Sized(env, st) && Lawful(env)
    decreases steps
  {
    if steps == 0 then []
    else
      var (st1, err, bad1) := ParseNext(env, st, bad);
      Booked(env, st) + if err != 0 then [] else Ledger(env, st1, bad1, steps - 1)
  }

  /** All bookings of a run. */
  ghost function RunLedger(env: Env, visible: Visible, steps: nat): seq<Booking>
    requires Lawful(env)
  {
    var st0 := State([], seq(|env.tables.groups|, _ => 0), visible, true);
    var (st1, err) := Initialize(env, st0);
    InitSized(env, st0);
    if err != 0 then [] else Ledger(env, st1, false, steps)
  }

  function Total(l: seq<Booking>, g: nat): nat {
    if l == [] then 0 else (if l[0].group == g then l[0].amount else 0) + Total(l[1..], g)
  }

  predicate InLedger(l: seq<Booking>, g: nat) {
    exists i :: 0 <= i < |l| && l[i].group == g
  }

  lemma {:induction false} TotalAppend(l: seq<Booking>, m: seq<Booking>, g: nat)
    ensures Total(l + m, g) == Total(l, g) + Total(m, g)
    decreases |l|
  {
    if l == [] {
      assert l + m == m;
    } else {
      assert (l + m)[1..] == l[1..] + m;
      TotalAppend(l[1..], m, g);
    }
  }

  predicate Positive(l: seq<Booking>) {
    forall i :: 0 <= i < |l| ==> l[i].amount > 0
  }

  lemma {:induction false} TotalZero(l: seq<Booking>, g: nat)
    requires Positive(l)
    ensures Total(l, g) == 0 <==> !InLedger(l, g)
    decreases |l|
  {
    if l != [] {
      TotalZero(l[1..], g);
      if InLedger(l[1..], g) {
        var i :| 0 <= i < |l[1..]| && l[1..][i].group == g;
        assert l[i + 1].group == g;
      }
      if InLedger(l, g) && l[0].group != g {
        var i :| 0 <= i < |l| && l[i].group == g;
        assert l[1..][i - 1].group == g;
      }
    }
  }

  lemma {:induction false} LedgerPositive(env: Env, st: State, bad: bool, steps: nat)
    requires Sized(env, st) && Lawful(env)
    ensures Positive(Ledger(env, st, bad, steps))
    decreases steps
  {
    hide ParseNext, ArgOf, Offer;
    if steps > 0 {
      var (st1, err, bad1) := ParseNext(env, st, bad);
      if err == 0 {
        LedgerPositive(env, st1, bad1, steps - 1);
      }
    }
  }

  lemma ArgBooks(env: Env, st: State, g: nat)
    requires Sized(env, st) && g < |st.processed|
    ensures ParseArg(env, st).0.processed[g] == st.processed[g] + Total(BookedArg(env, st), g)
  {
    OfferSized(env, st.(visible := st.visible.(next := st.visible.next - 1)), 0);
    hide Offer;
    var l := BookedArg(env, st);
    assert l != [] ==> l[1..] == [];
  }

  lemma PastBooks(env: Env, st: State, bad: bool, g: nat)
    requires Sized(env, st) && g < |st.processed|
    ensures var at := NextArg(st);
      PastOptions(env, st, bad).0.processed[g] == st.processed[g] + if at.None? then 0 else Total(BookedArg(env, at.value), g)
  {
    if NextArg(st).Some? {
      ArgBooks(env, NextArg(st).value, g);
    }
    hide ParseArg, BookedArg;
  }

  lemma OptBooks(env: Env, st: State, opt: int)
    requires GroupKey(opt) == 0 || 0 < GroupKey(opt) <= |env.tables.groups|
    ensures Target(env.tables, opt).Some? ==> Target(env.tables, opt).value.0 < |env.tables.groups|
    ensures ParseOpt(env, st, opt).0.processed == st.processed
  {
  }

  /** One step adds exactly what it books. */
  lemma NextBooks(env: Env, st: State, bad: bool, g: nat)
    requires Sized(env, st) && Lawful(env) && g < |st.processed|
    ensures ParseNext(env, st, bad).0.processed[g] == st.processed[g] + Total(Booked(env, st), g)
  {
    hide ParseArg, ParseOpt, PastOptions, BookedArg, NextArg, Target;
    var q := st.visible.quoted;
    var st0 := if q != 0 && st.visible.next < q then st.(visible := st.visible.(quoted := 0)) else st;
    if !st0.tryGetopt || st0.visible.quoted != 0 {
      PastBooks(env, st0, bad, g);
    } else {
      var a := env.getopt(st0.trace, st0.visible);
      AnswerKnown(env, st0.trace, st0.visible);
      hide Lawful;
      var st1 := st0.(trace := st0.trace + [Asked(a.opt)], visible := st0.visible.(next := a.optind));
      if a.opt == KEY_END {
        var v := if a.optind > 1 && a.afterQuote then st1.visible.(quoted := a.optind) else st1.visible;
        PastBooks(env, st1.(tryGetopt := false, visible := v), bad, g);
      } else if a.opt == KEY_ARG {
        ArgBooks(env, st1, g);
      } else if a.opt != KEY_ERR || a.optopt == KEY_END {
        OptBooks(env, st1, a.opt);
      }
    }
  }

  /** So does the whole loop. */
  lemma {:induction false} AllBooks(env: Env, st: State, bad: bool, steps: nat, g: nat)
    requires Sized(env, st) && Lawful(env) && g < |st.processed|
    ensures var r := ParseAll(env, st, bad, steps);
      r.Some? ==>
        && Sized(env, r.value.0) && g < |r.value.0.processed|
        && r.value.0.processed[g] == st.processed[g] + Total(Ledger(env, st, bad, steps), g)
    decreases steps
  {
    hide *;
    if steps == 0 {
      AllNone(env, st, bad);
    } else {
      NextBooks(env, st, bad, g);
      AllStep(env, st, bad, steps, g);
      var (st1, err, bad1) := ParseNext(env, st, bad);
      if err == 0 {
        AllBooks(env, st1, bad1, steps - 1, g);
      }
    }
  }

  lemma AllNone(env: Env, st: State, bad: bool)
    requires Sized(env, st) && Lawful(env)
    ensures ParseAll(env, st, bad, 0) == None
  {
  }

  lemma AllStep(env: Env, st: State, bad: bool, steps: nat, g: nat)
    requires Sized(env, st) && Lawful(env) && steps > 0 && g < |st.processed|
    ensures var (st1, err, bad1) := ParseNext(env, st, bad);
      && g < |st1.processed|
      && ParseAll(env, st, bad, steps) == (if err != 0 then Some((st1, err, bad1)) else ParseAll(env, st1, bad1, steps - 1))
      && Total(Ledger(env, st, bad, steps), g)
         == Total(Booked(env, st), g) + if err != 0 then 0 else Total(Ledger(env, st1, bad1, steps - 1), g)
  {
    hide ParseNext, Booked, Lawful, Total;
    var (st1, err, bad1) := ParseNext(env, st, bad);
    if err == 0 {
      TotalAppend(Booked(env, st), Ledger(env, st1, bad1, steps - 1), g);
    } else {
      assert Booked(env, st) + [] == Booked(env, st);
    }
  }

  /** At the end of every run, a parser's counter is the sum of what was booked for it. */
  lemma CountersAreBooked(env: Env, visible: Visible, steps: nat, g: nat)
    requires Lawful(env) && Finish(env, visible, steps).Some? && g < |env.tables.groups|
    ensures var st, l := Finish(env, visible, steps).value.0, RunLedger(env, visible, steps);
      && Sized(env, st) && st.processed[g] == Total(l, g)
      && (st.processed[g] == 0 <==> !InLedger(l, g))
  {
    var n := |env.tables.groups|;
    var st0 := State([], seq(n, _ => 0), visible, true);
    var st1 := Initialize(env, st0).0;
    InitSized(env, st0);
    SweepSized(env, st0, Upward(n), INIT, 0);
    assert st1.processed[g] == 0;
    AllBooks(env, st1, false, steps, g);
    LedgerPositive(env, st1, false, steps);
    TotalZero(Ledger(env, st1, false, steps), g);
  }
}
