/** When the export tool keeps a module's sections, and that doing it twice changes nothing. */
module AddExportTheorems {
  import opened Options
  import opened AddExport

  // ---- section by section ----

  predicate IsCustom(s: Section) {
    s.Plain? && s.id == CUSTOM
  }

  /** The place of a section in a module. */
  function Rank(s: Section): nat {
    match s
    case Plain(id, _, _) => if id == TAG then 6 else if id == GLOBAL then 7 else if id == START then 9 else if id == ELEMENT then 10
      else if id == DATA_COUNT then 11 else if id == DATA then 13 else id
    case Exports(_) => 8
    case Code(_, _, _) => 12
  }

  predicate SectionOk(s: Section) {
    match s
    case Plain(id, _, _) => id <= 6 || id == START || id == ELEMENT || id == DATA || id == DATA_COUNT || id == TAG
    case Exports(_) => true
    case Code(_, end, ends) => ends == [] || ends[|ends| - 1] == end
  }

  /** Sections other than custom ones come in order, each at most once. */
  predicate WellFormed(secs: seq<Section>) {
    && (forall i :: 0 <= i < |secs| ==> SectionOk(secs[i]))
    && (forall i, j :: 0 <= i < j < |secs| && !IsCustom(secs[i]) && !IsCustom(secs[j]) ==> Rank(secs[i]) < Rank(secs[j]))
  }

  /** What one section does to the state. */
  function Pass(wasm: Bytes, extra: Export, st: State, s: Section): Option<State> {
    match s
    case Plain(id, start, end) => Step(wasm, extra, st, Contents(id, start, end))
    case Exports(list) => Step(wasm, extra, st, ExportList(list))
    case Code(start, _, ends) =>
      var st1 := Insert(st, CodeStart(start)).(codeStart := Some(start));
      Some(if ends == [] then st1 else st1.(codeEnd := Some(ends[|ends| - 1])))
  }

  function PassAll(wasm: Bytes, extra: Export, st: State, secs: seq<Section>): Option<State>
    decreases |secs|
  {
    if secs == [] then Some(st)
    else
      match Pass(wasm, extra, st, secs[0])
      case None => None
      case Some(st1) => PassAll(wasm, extra, st1, secs[1..])
  }

  lemma {:induction false} RunAppend(wasm: Bytes, extra: Export, st: State, a: seq<Payload>, b: seq<Payload>)
    ensures var r := Run(wasm, extra, st, a);
      Run(wasm, extra, st, a + b) == if r.None? then None else Run(wasm, extra, r.value, b)
    decreases |a|
  {
    hide Step;
    if a == [] {
      assert a + b == b;
    } else {
      assert (a + b)[0] == a[0] && (a + b)[1..] == a[1..] + b;
      var r := Step(wasm, extra, st, a[0]);
      if r.Some? {
        RunAppend(wasm, extra, r.value, a[1..], b);
      }
    }
  }

  lemma {:induction false} RunEntries(wasm: Bytes, extra: Export, st: State, ends: seq<nat>)
    ensures Run(wasm, extra, st, Entries(ends)) == Some(if ends == [] then st else st.(codeEnd := Some(ends[|ends| - 1])))
    decreases |ends|
  {
    if ends != [] {
      var st1 := st.(codeEnd := Some(ends[0]));
      assert Step(wasm, extra, st, CodeEntry(ends[0])) == Some(st1);
      hide Step;
      RunOne(wasm, extra, st, CodeEntry(ends[0]));
      RunAppend(wasm, extra, st, [CodeEntry(ends[0])], Entries(ends[1..]));
      RunEntries(wasm, extra, st1, ends[1..]);
      hide Run;
    }
  }

  lemma RunSection(wasm: Bytes, extra: Export, st: State, s: Section)
    ensures Run(wasm, extra, st, PayloadsOf(s)) == Pass(wasm, extra, st, s)
  {
    match s
    case Plain(id, start, end) => RunOne(wasm, extra, st, Contents(id, start, end));
    case Exports(list) => RunOne(wasm, extra, st, ExportList(list));
    case Code(start, _, ends) =>
      RunOne(wasm, extra, st, CodeStart(start));
      RunAppend(wasm, extra, st, [CodeStart(start)], Entries(ends));
      RunEntries(wasm, extra, Insert(st, CodeStart(start)).(codeStart := Some(start)), ends);
      hide Run, Entries;
  }

  lemma RunOne(wasm: Bytes, extra: Export, st: State, p: Payload)
    ensures Run(wasm, extra, st, [p]) == Step(wasm, extra, st, p)
  {
    hide Step;
    assert [p][1..] == [];
    var r := Step(wasm, extra, st, p);
    if r.Some? {
      assert Run(wasm, extra, r.value, []) == r;
    }
  }

  lemma {:induction false} RunMiddle(wasm: Bytes, extra: Export, st: State, secs: seq<Section>)
    ensures Run(wasm, extra, st, Middle(secs)) == PassAll(wasm, extra, st, secs)
    decreases |secs|
  {
    hide Step, Pass, PayloadsOf;
    if secs != [] {
      RunSection(wasm, extra, st, secs[0]);
      RunAppend(wasm, extra, st, PayloadsOf(secs[0]), Middle(secs[1..]));
      var r := Pass(wasm, extra, st, secs[0]);
      if r.Some? {
        RunMiddle(wasm, extra, r.value, secs[1..]);
      }
    }
  }

  lemma RunPayloads(wasm: Bytes, extra: Export, secs: seq<Section>)
    ensures Run(wasm, extra, INITIAL, Payloads(secs)) == PassAll(wasm, extra, INITIAL, secs)
  {
    RunOne(wasm, extra, INITIAL, Version);
    RunMiddle(wasm, extra, INITIAL, secs);
    RunAppend(wasm, extra, INITIAL, [Version], Middle(secs));
    RunAppend(wasm, extra, INITIAL, [Version] + Middle(secs), [End]);
    var r := PassAll(wasm, extra, INITIAL, secs);
    if r.Some? {
      RunOne(wasm, extra, r.value, End);
    }
    hide Run, Middle, PassAll;
  }

  // ---- what is emitted, custom sections aside ----

  function Others(es: seq<Emitted>): seq<Emitted> {
    if es == [] then []
    else (if es[0].Raw? && es[0].id == CUSTOM then [] else [es[0]]) + Others(es[1..])
  }

  lemma {:induction false} OthersAppend(a: seq<Emitted>, b: seq<Emitted>)
    ensures Others(a + b) == Others(a) + Others(b)
    decreases |a|
  {
    if a == [] {
      assert a + b == b;
    } else {
      assert (a + b)[0] == a[0] && (a + b)[1..] == a[1..] + b;
      OthersAppend(a[1..], b);
      Shift(if a[0].Raw? && a[0].id == CUSTOM then [] else [a[0]], Others(a[1..]), Others(b));
    }
  }

  lemma Shift(a: seq<Emitted>, b: seq<Emitted>, c: seq<Emitted>)
    ensures (a + b) + c == a + (b + c)
  {
  }

  lemma OthersPush(a: seq<Emitted>, e: Emitted)
    ensures Others(a + [e]) == if e.Raw? && e.id == CUSTOM then Others(a) else Others(a) + [e]
  {
    OthersAppend(a, [e]);
    assert [e][1..] == [];
    assert Others(a) + [] == Others(a);
  }

  predicate Triggers(s: Section) {
    match s
    case Plain(id, start, end) => InsertBefore(Contents(id, start, end))
    case Exports(_) => false
    case Code(_, _, _) => true
  }

  function Own(wasm: Bytes, s: Section): seq<Emitted> {
    match s
    case Plain(id, start, end) => if id == CUSTOM then [] else [Raw(id, Slice(wasm, start, end))]
    case Exports(_) => [NewExport]
    case Code(start, _, ends) => if ends == [] then [] else [Raw(CODE, Slice(wasm, start, ends[|ends| - 1]))]
  }

  function InsertHere(s: Section, seen: bool): seq<Emitted> {
    if !seen && Triggers(s) then [NewExport] else []
  }

  /** What comes out for the sections; `seen` tells whether there was an export section already. */
  function Expect(wasm: Bytes, secs: seq<Section>, seen: bool): seq<Emitted>
    decreases |secs|
  {
    if secs == [] then if seen then [] else [NewExport]
    else InsertHere(secs[0], seen) + (Own(wasm, secs[0]) + Expect(wasm, secs[1..], seen || Triggers(secs[0]) || secs[0].Exports?))
  }

  /** Bounds of a code section are only kept once exports are settled, and while nothing but data can follow. */
  predicate CodeFits(st: State, secs: seq<Section>) {
    && (st.codeStart.None? ==> st.codeEnd.None?)
    && (st.codeStart.Some? ==> st.sawExport || st.inserted)
    && (st.codeStart.Some? ==> forall i :: 0 <= i < |secs| && !IsCustom(secs[i]) ==> Rank(secs[i]) > 12)
  }

  lemma TailOk(secs: seq<Section>)
    requires WellFormed(secs) && secs != []
    ensures WellFormed(secs[1..])
  {
  }

  /** Emission of one section, before what follows it. */
  lemma PassEmits(wasm: Bytes, extra: Export, st: State, secs: seq<Section>)
    requires WellFormed(secs) && secs != [] && CodeFits(st, secs) && Pass(wasm, extra, st, secs[0]).Some?
    ensures var st1 := Pass(wasm, extra, st, secs[0]).value;
      && CodeFits(st1, secs[1..])
      && (st1.sawExport || st1.inserted) == (st.sawExport || st.inserted || Triggers(secs[0]) || secs[0].Exports?)
      && Others(st1.emitted) + Pending(wasm, st1)
         == Others(st.emitted) + Pending(wasm, st) + (InsertHere(secs[0], st.sawExport || st.inserted) + Own(wasm, secs[0]))
  {
    var s := secs[0];
    PassFits(wasm, extra, st, secs);
    hide Others, Pass, InsertHere, Own, Pending, CodeFits, Triggers;
    match s
    case Plain(id, start, end) => PlainEmits(wasm, extra, st, secs);
    case Exports(list) =>
      NoCodeYet(st, secs);
      ExportsEmit(wasm, extra, st, s);
    case Code(start, _, ends) =>
      NoCodeYet(st, secs);
      CodeEmits(wasm, extra, st, s);
  }

  /** From `st` to `st1`, what is emitted or pending grows by inserted exports and the section's own output. */
  predicate Emits(wasm: Bytes, st: State, st1: State, s: Section) {
    Others(st1.emitted) + Pending(wasm, st1)
    == Others(st.emitted) + Pending(wasm, st) + (InsertHere(s, st.sawExport || st.inserted) + Own(wasm, s))
  }

  lemma Tidy(a: seq<Emitted>, b: seq<Emitted>, c: seq<Emitted>)
    ensures a + [] == a && [] + a == a && (a + b) + c == a + (b + c)
  {
  }

  lemma ExportsEmit(wasm: Bytes, extra: Export, st: State, s: Section)
    requires s.Exports? && st.codeStart.None? && st.codeEnd.None? && Pass(wasm, extra, st, s).Some?
    ensures Emits(wasm, st, Pass(wasm, extra, st, s).value, s)
  {
    OthersPush(st.emitted, NewExport);
    var st1 := Pass(wasm, extra, st, s).value;
    assert st1.emitted == st.emitted + [NewExport] && Pending(wasm, st1) == [] && Pending(wasm, st) == [];
    hide Others, Pass, Pending;
    Tidy(Others(st.emitted), [NewExport], []);
    Tidy([NewExport], [], []);
    Tidy(Others(st1.emitted), [], []);
  }

  lemma CodeEmits(wasm: Bytes, extra: Export, st: State, s: Section)
    requires s.Code? && st.codeStart.None? && st.codeEnd.None?
    ensures Emits(wasm, st, Pass(wasm, extra, st, s).value, s)
  {
    OthersPush(st.emitted, NewExport);
    var st1, i := Pass(wasm, extra, st, s).value, InsertHere(s, st.sawExport || st.inserted);
    assert Pending(wasm, st1) == Own(wasm, s) && Pending(wasm, st) == [];
    hide Slice, Own;
    assert Others(st1.emitted) == Others(st.emitted) + i by {
      Tidy(Others(st.emitted), [], []);
    }
    hide Others, Pass, Pending, InsertHere;
    Tidy(Others(st.emitted), i, Own(wasm, s));
  }

  lemma NoCodeYet(st: State, secs: seq<Section>)
    requires CodeFits(st, secs) && secs != [] && !IsCustom(secs[0]) && Rank(secs[0]) <= 12
    ensures st.codeStart.None? && st.codeEnd.None?
  {
  }

  /** The bounds and the flags after one section. */
  lemma PassFits(wasm: Bytes, extra: Export, st: State, secs: seq<Section>)
    requires WellFormed(secs) && secs != [] && CodeFits(st, secs) && Pass(wasm, extra, st, secs[0]).Some?
    ensures var st1 := Pass(wasm, extra, st, secs[0]).value;
      && CodeFits(st1, secs[1..])
      && (st1.sawExport || st1.inserted) == (st.sawExport || st.inserted || Triggers(secs[0]) || secs[0].Exports?)
  {
    hide Slice, Supported, Named;
  }

  lemma PlainEmits(wasm: Bytes, extra: Export, st: State, secs: seq<Section>)
    requires WellFormed(secs) && secs != [] && CodeFits(st, secs) && secs[0].Plain?
    ensures Emits(wasm, st, Pass(wasm, extra, st, secs[0]).value, secs[0])
  {
    var s, seen := secs[0], st.sawExport || st.inserted;
    var e, i := Raw(s.id, Slice(wasm, s.start, s.end)), InsertHere(s, seen);
    var st1 := Pass(wasm, extra, st, s).value;
    hide Others, Slice, WellFormed;
    if s.id == DATA || s.id == TAG {
      FlushEmits(wasm, st, e, seen);
      assert Pending(wasm, st1) == [];
      Tidy(Others(st1.emitted), [], []);
    } else if st.codeStart.Some? {
      assert s.id == CUSTOM && st1.emitted == st.emitted + [e] && Pending(wasm, st1) == Pending(wasm, st);
      OthersPush(st.emitted, e);
      hide Pass, Pending, CodeFits;
      Tidy(Others(st.emitted) + Pending(wasm, st), [], []);
    } else {
      assert Pending(wasm, st1) == [] && Pending(wasm, st) == [] && Own(wasm, s) == if s.id == CUSTOM then [] else [e];
      QuietEmits(st, e, i, Own(wasm, s), st1);
    }
  }

  lemma QuietEmits(st: State, e: Emitted, i: seq<Emitted>, own: seq<Emitted>, st1: State)
    requires i == [] || i == [NewExport]
    requires e.Raw? && own == (if e.id == CUSTOM then [] else [e]) && st1.emitted == st.emitted + i + [e]
    ensures Others(st1.emitted) + [] == Others(st.emitted) + [] + (i + own)
  {
    OthersPush(st.emitted, NewExport);
    OthersPush(st.emitted + i, e);
    hide Others;
    if i == [] {
      Tidy(st.emitted, [], []);
    }
    assert Others(st.emitted + i) == Others(st.emitted) + i;
    Tidy(Others(st.emitted), i, own);
    Tidy(Others(st1.emitted), [], []);
  }

  /** A data or tag section, with the code section that may have to go before it. */
  lemma FlushEmits(wasm: Bytes, st: State, e: Emitted, seen: bool)
    requires seen == (st.sawExport || st.inserted) && (Pending(wasm, st) != [] ==> seen) && !(e.Raw? && e.id == CUSTOM)
    ensures var st1 := Flush(wasm, if seen then st else st.(emitted := st.emitted + [NewExport], inserted := true));
      Others(st1.emitted + [e]) == Others(st.emitted) + Pending(wasm, st) + ((if seen then [] else [NewExport]) + [e])
  {
    hide Others, Slice;
    var pending := Pending(wasm, st);
    if pending != [] {
      OthersPush(st.emitted, pending[0]);
      OthersPush(st.emitted + pending, e);
    } else if seen {
      assert st.emitted + [] == st.emitted;
      OthersPush(st.emitted, e);
    } else {
      assert st.emitted + [NewExport] + [] == st.emitted + [NewExport];
      OthersPush(st.emitted, NewExport);
      OthersPush(st.emitted + [NewExport], e);
    }
  }

  lemma {:induction false} PassAllEmits(wasm: Bytes, extra: Export, st: State, secs: seq<Section>)
    requires WellFormed(secs) && CodeFits(st, secs) && PassAll(wasm, extra, st, secs).Some?
    ensures var last := Finish(wasm, extra, PassAll(wasm, extra, st, secs).value);
      Others(last.emitted) == Others(st.emitted) + Pending(wasm, st) + Expect(wasm, secs, st.sawExport || st.inserted)
    decreases |secs|
  {
    if secs == [] {
      FinishEmits(wasm, extra, st);
    } else {
      TailOk(secs);
      PassEmits(wasm, extra, st, secs);
      var st1 := Pass(wasm, extra, st, secs[0]).value;
      hide Pass, Others, Pending, Own, InsertHere, WellFormed, CodeFits, Finish;
      PassAllEmits(wasm, extra, st1, secs[1..]);
      Assoc(Others(st.emitted) + Pending(wasm, st), InsertHere(secs[0], st.sawExport || st.inserted), Own(wasm, secs[0]),
            Expect(wasm, secs[1..], st1.sawExport || st1.inserted));
    }
  }

  lemma Assoc(a: seq<Emitted>, b: seq<Emitted>, c: seq<Emitted>, d: seq<Emitted>)
    ensures a + (b + c) + d == a + (b + (c + d))
  {
  }

  lemma FinishEmits(wasm: Bytes, extra: Export, st: State)
    ensures Others(Finish(wasm, extra, st).emitted)
         == Others(st.emitted) + Pending(wasm, st) + (if st.sawExport || st.inserted then [] else [NewExport])
  {
    var st1 := Flush(wasm, st);
    if Pending(wasm, st) != [] {
      OthersPush(st.emitted, Pending(wasm, st)[0]);
    } else {
      assert st.emitted + [] == st.emitted;
    }
    OthersPush(st1.emitted, NewExport);
  }

  // ---- the rebuilt exports ----

  /** The list with the new export, unless its name is taken. */
  function Added(list: seq<Export>, extra: Export): seq<Export> {
    if Named(list, extra.name) then list else list + [extra]
  }

  function ExportsOf(secs: seq<Section>): Option<seq<Export>> {
    if secs == [] then None
    else if secs[0].Exports? then Some(secs[0].list)
    else ExportsOf(secs[1..])
  }

  predicate AnyTriggers(secs: seq<Section>) {
    secs != [] && (Triggers(secs[0]) || AnyTriggers(secs[1..]))
  }

  predicate AllSupported(secs: seq<Section>) {
    secs == [] || ((secs[0].Exports? ==> Supported(secs[0].list)) && AllSupported(secs[1..]))
  }

  lemma {:induction false} PassFailsOnKind(wasm: Bytes, extra: Export, st: State, secs: seq<Section>)
    ensures PassAll(wasm, extra, st, secs).Some? <==> AllSupported(secs)
    decreases |secs|
  {
    if secs != [] {
      var r := Pass(wasm, extra, st, secs[0]);
      assert r.None? <==> secs[0].Exports? && !Supported(secs[0].list);
      hide Pass, Supported;
      if r.Some? {
        PassFailsOnKind(wasm, extra, r.value, secs[1..]);
      }
    }
  }

  lemma {:induction false} NoMoreExports(secs: seq<Section>, r: nat)
    requires WellFormed(secs) && r >= 8
    requires forall i :: 0 <= i < |secs| && !IsCustom(secs[i]) ==> Rank(secs[i]) > r
    ensures ExportsOf(secs).None?
    decreases |secs|
  {
    if secs != [] {
      TailOk(secs);
      NoMoreExports(secs[1..], r);
    }
  }

  /** What follows a section other than a custom one ranks higher. */
  lemma Higher(secs: seq<Section>)
    requires WellFormed(secs) && secs != [] && !IsCustom(secs[0])
    ensures forall i :: 0 <= i < |secs[1..]| && !IsCustom(secs[1..][i]) ==> Rank(secs[1..][i]) > Rank(secs[0])
  {
  }

  lemma {:induction false} NoExportsRebuilt(wasm: Bytes, extra: Export, st: State, secs: seq<Section>)
    requires ExportsOf(secs).None? && PassAll(wasm, extra, st, secs).Some?
    ensures var st1 := PassAll(wasm, extra, st, secs).value;
      && st1.rebuilt == st.rebuilt && st1.sawExport == st.sawExport
      && (st1.inserted <==> st.inserted || (!st.sawExport && AnyTriggers(secs)))
    decreases |secs|
  {
    if secs != [] {
      var st1 := Pass(wasm, extra, st, secs[0]).value;
      assert st1.rebuilt == st.rebuilt && st1.sawExport == st.sawExport;
      assert st1.inserted <==> st.inserted || (!st.sawExport && Triggers(secs[0]));
      hide Pass, Triggers;
      NoExportsRebuilt(wasm, extra, st1, secs[1..]);
    }
  }

  lemma {:induction false} ExportsRebuilt(wasm: Bytes, extra: Export, st: State, secs: seq<Section>)
    requires WellFormed(secs) && ExportsOf(secs).Some? && PassAll(wasm, extra, st, secs).Some?
    requires !st.sawExport && st.rebuilt == [] && !st.present
    ensures var st1 := PassAll(wasm, extra, st, secs).value;
      st1.rebuilt == Added(ExportsOf(secs).value, extra) && st1.sawExport
    decreases |secs|
  {
    TailOk(secs);
    var st1 := Pass(wasm, extra, st, secs[0]).value;
    if secs[0].Exports? {
      Higher(secs);
      NoMoreExports(secs[1..], 8);
      assert [] + secs[0].list + [] == secs[0].list && [] + secs[0].list == secs[0].list;
      assert st1.rebuilt == Added(secs[0].list, extra) && st1.sawExport;
      hide Pass, Added, WellFormed;
      NoExportsRebuilt(wasm, extra, st1, secs[1..]);
    } else {
      assert !st1.sawExport && st1.rebuilt == [] && !st1.present;
      hide Pass, Added;
      ExportsRebuilt(wasm, extra, st1, secs[1..]);
    }
  }

  // ---- the module as it should be ----

  function OthersC(cs: seq<Content>): seq<Content> {
    if cs == [] then []
    else (if cs[0].Bin? && cs[0].id == CUSTOM then [] else [cs[0]]) + OthersC(cs[1..])
  }

  lemma {:induction false} OthersWritten(es: seq<Emitted>, rebuilt: seq<Export>)
    ensures OthersC(Written(es, rebuilt)) == Written(Others(es), rebuilt)
    decreases |es|
  {
    if es != [] {
      OthersWritten(es[1..], rebuilt);
      WrittenAppend(if es[0].Raw? && es[0].id == CUSTOM then [] else [es[0]], Others(es[1..]), rebuilt);
    }
  }

  lemma {:induction false} WrittenAppend(a: seq<Emitted>, b: seq<Emitted>, rebuilt: seq<Export>)
    ensures Written(a + b, rebuilt) == Written(a, rebuilt) + Written(b, rebuilt)
    decreases |a|
  {
    if a == [] {
      assert a + b == b;
    } else {
      assert (a + b)[0] == a[0] && (a + b)[1..] == a[1..] + b;
      WrittenAppend(a[1..], b, rebuilt);
    }
  }

  /** The sections in their order, the export section with the new export. */
  function Extended(wasm: Bytes, secs: seq<Section>, extra: Export): seq<Content> {
    if secs == [] then []
    else if IsCustom(secs[0]) then Extended(wasm, secs[1..], extra)
    else [if secs[0].Exports? then List(Added(secs[0].list, extra)) else ContentOf(wasm, secs[0])] + Extended(wasm, secs[1..], extra)
  }

  /** The same for a module without one: a new section in its place. */
  function WithNew(wasm: Bytes, secs: seq<Section>, extra: Export): seq<Content> {
    if secs == [] then [List([extra])]
    else if IsCustom(secs[0]) then WithNew(wasm, secs[1..], extra)
    else if Rank(secs[0]) > 8 then [List([extra])] + Extended(wasm, secs, extra)
    else [ContentOf(wasm, secs[0])] + WithNew(wasm, secs[1..], extra)
  }

  function Ideal(wasm: Bytes, secs: seq<Section>, extra: Export): seq<Content> {
    if ExportsOf(secs).Some? then Extended(wasm, secs, extra) else WithNew(wasm, secs, extra)
  }

  predicate HasTag(secs: seq<Section>) {
    secs != [] && ((secs[0].Plain? && secs[0].id == TAG) || HasTag(secs[1..]))
  }

  predicate EmptyCode(secs: seq<Section>) {
    secs != [] && ((secs[0].Code? && secs[0].ends == []) || EmptyCode(secs[1..]))
  }

  /** The modules the tool is right about. */
  predicate Good(secs: seq<Section>) {
    if ExportsOf(secs).Some? then !HasTag(secs) && !EmptyCode(secs) else !AnyTriggers(secs)
  }

  // ---- good modules ----

  lemma {:induction false} RankBefore(secs: seq<Section>)
    requires WellFormed(secs) && secs != [] && !IsCustom(secs[0]) && ExportsOf(secs[1..]).Some?
    ensures Rank(secs[0]) < 8
  {
    Higher(secs);
    TailOk(secs);
    if Rank(secs[0]) >= 8 {
      NoMoreExports(secs[1..], 8);
      assert false;
    }
  }

  lemma {:induction false} GoodExtended(wasm: Bytes, secs: seq<Section>, seen: bool, list: seq<Export>, extra: Export)
    requires WellFormed(secs) && !HasTag(secs) && !EmptyCode(secs)
    requires if seen then ExportsOf(secs).None? else ExportsOf(secs) == Some(list)
    ensures Written(Expect(wasm, secs, seen), Added(list, extra)) == Extended(wasm, secs, extra)
    decreases |secs|
  {
    if secs != [] {
      TailOk(secs);
      var s, seen1 := secs[0], seen || Triggers(secs[0]) || secs[0].Exports?;
      if s.Exports? {
        Higher(secs);
        NoMoreExports(secs[1..], 8);
      } else if !seen && !IsCustom(s) {
        RankBefore(secs);
      }
      assert !seen ==> !Triggers(s);
      GoodExtended(wasm, secs[1..], seen1, list, extra);
      hide Slice, Added, WellFormed, HasTag, EmptyCode;
      OneWritten(Own(wasm, s), Expect(wasm, secs[1..], seen1), Added(list, extra));
      assert [] + (Own(wasm, s) + Expect(wasm, secs[1..], seen1)) == Own(wasm, s) + Expect(wasm, secs[1..], seen1);
    }
  }

  lemma OneWritten(own: seq<Emitted>, rest: seq<Emitted>, rebuilt: seq<Export>)
    requires |own| <= 1
    ensures Written(own + rest, rebuilt)
         == (if own == [] then [] else [if own[0].NewExport? then List(rebuilt) else Bin(own[0].id, own[0].data)]) + Written(rest, rebuilt)
  {
    if own == [] {
      assert own + rest == rest;
    } else {
      assert (own + rest)[1..] == rest;
    }
  }

  lemma {:induction false} GoodWithNew(wasm: Bytes, secs: seq<Section>, extra: Export)
    requires WellFormed(secs) && ExportsOf(secs).None? && !AnyTriggers(secs)
    ensures Written(Expect(wasm, secs, false), [extra]) == WithNew(wasm, secs, extra)
    decreases |secs|
  {
    if secs == [] {
      assert [NewExport][1..] == [];
    } else {
      TailOk(secs);
      var s := secs[0];
      assert !IsCustom(s) ==> Rank(s) <= 8;
      GoodWithNew(wasm, secs[1..], extra);
      hide Slice, WellFormed;
      OneWritten(Own(wasm, s), Expect(wasm, secs[1..], false), [extra]);
      assert [] + (Own(wasm, s) + Expect(wasm, secs[1..], false)) == Own(wasm, s) + Expect(wasm, secs[1..], false);
    }
  }

  // ---- the other modules ----

  function CountLists(cs: seq<Content>): nat {
    if cs == [] then 0 else (if cs[0].List? then 1 else 0) + CountLists(cs[1..])
  }

  function CountCodes(cs: seq<Content>): nat {
    if cs == [] then 0 else (if cs[0].Bin? && cs[0].id == CODE then 1 else 0) + CountCodes(cs[1..])
  }

  lemma {:induction false} CountsAppend(a: seq<Content>, b: seq<Content>)
    ensures CountLists(a + b) == CountLists(a) + CountLists(b) && CountCodes(a + b) == CountCodes(a) + CountCodes(b)
    decreases |a|
  {
    if a == [] {
      assert a + b == b;
    } else {
      assert (a + b)[0] == a[0] && (a + b)[1..] == a[1..] + b;
      CountsAppend(a[1..], b);
    }
  }

  /** Whether exports are put in although the export section is still to come, or is missing. */
  predicate Early(secs: seq<Section>) {
    secs == [] || Triggers(secs[0]) || (!secs[0].Exports? && Early(secs[1..]))
  }

  lemma CountsOne(c: Content)
    ensures CountLists([c]) == (if c.List? then 1 else 0) && CountCodes([c]) == if c.Bin? && c.id == CODE then 1 else 0
  {
    assert [c][1..] == [];
  }

  /** One export section too many if they come early, one code section too few if it is empty. */
  lemma {:induction false} ExpectCounts(wasm: Bytes, secs: seq<Section>, seen: bool, rebuilt: seq<Export>, extra: Export)
    requires WellFormed(secs)
    ensures var w, x := Written(Expect(wasm, secs, seen), rebuilt), Extended(wasm, secs, extra);
      && CountLists(w) == CountLists(x) + (if !seen && Early(secs) then 1 else 0)
      && CountCodes(w) <= CountCodes(x) && (EmptyCode(secs) ==> CountCodes(w) < CountCodes(x))
    decreases |secs|
  {
    if secs == [] {
      if !seen {
        assert [NewExport][1..] == [];
        CountsOne(List(rebuilt));
      }
    } else {
      TailOk(secs);
      var s, seen1 := secs[0], seen || Triggers(secs[0]) || secs[0].Exports?;
      var ins, own, rest := InsertHere(s, seen), Own(wasm, s), Expect(wasm, secs[1..], seen1);
      ExpectCounts(wasm, secs[1..], seen1, rebuilt, extra);
      WrittenAppend(ins, own + rest, rebuilt);
      WrittenAppend(own, rest, rebuilt);
      CountsAppend(Written(ins, rebuilt), Written(own + rest, rebuilt));
      CountsAppend(Written(own, rebuilt), Written(rest, rebuilt));
      OwnCounts(wasm, s, seen, rebuilt);
      ExtendedCounts(wasm, secs, extra);
      hide Slice, WellFormed, Own, InsertHere, Written, CountLists, CountCodes, Extended, Triggers;
    }
  }

  lemma OwnCounts(wasm: Bytes, s: Section, seen: bool, rebuilt: seq<Export>)
    requires SectionOk(s)
    ensures CountLists(Written(InsertHere(s, seen), rebuilt)) == (if !seen && Triggers(s) then 1 else 0)
    ensures CountCodes(Written(InsertHere(s, seen), rebuilt)) == 0
    ensures CountLists(Written(Own(wasm, s), rebuilt)) == (if s.Exports? then 1 else 0)
    ensures CountCodes(Written(Own(wasm, s), rebuilt)) == if s.Code? && s.ends != [] then 1 else 0
  {
    hide Slice;
    assert [NewExport][1..] == [];
    CountsOne(List(rebuilt));
    var own := Own(wasm, s);
    if own != [] {
      assert own[1..] == [];
      CountsOne(if own[0].NewExport? then List(rebuilt) else Bin(own[0].id, own[0].data));
    }
  }

  lemma ExtendedCounts(wasm: Bytes, secs: seq<Section>, extra: Export)
    requires secs != [] && SectionOk(secs[0])
    ensures CountLists(Extended(wasm, secs, extra)) == CountLists(Extended(wasm, secs[1..], extra)) + (if secs[0].Exports? then 1 else 0)
    ensures CountCodes(Extended(wasm, secs, extra)) == CountCodes(Extended(wasm, secs[1..], extra)) + (if secs[0].Code? then 1 else 0)
  {
    hide Slice, Added;
    var s := secs[0];
    if !IsCustom(s) {
      var c := if s.Exports? then List(Added(s.list, extra)) else ContentOf(wasm, s);
      CountsAppend([c], Extended(wasm, secs[1..], extra));
      CountsOne(c);
    }
  }

  lemma {:induction false} TagComesEarly(secs: seq<Section>)
    requires WellFormed(secs) && HasTag(secs) && ExportsOf(secs).Some?
    ensures Early(secs)
    decreases |secs|
  {
    TailOk(secs);
    if secs[0].Exports? {
      Higher(secs);
      NoTagAfter(secs[1..]);
      assert false;
    } else if !(secs[0].Plain? && secs[0].id == TAG) {
      TagComesEarly(secs[1..]);
    }
  }

  lemma {:induction false} NoTagAfter(secs: seq<Section>)
    requires forall i :: 0 <= i < |secs| && !IsCustom(secs[i]) ==> Rank(secs[i]) > 8
    ensures !HasTag(secs)
    decreases |secs|
  {
    if secs != [] {
      NoTagAfter(secs[1..]);
    }
  }

  lemma {:induction false} WrittenLists(es: seq<Emitted>, rebuilt: seq<Export>, list: seq<Export>)
    requires List(list) in Written(es, rebuilt)
    ensures list == rebuilt
    decreases |es|
  {
    if es[0].Raw? || list != rebuilt {
      WrittenLists(es[1..], rebuilt, list);
    }
  }

  lemma {:induction false} NewIsThere(wasm: Bytes, secs: seq<Section>, extra: Export)
    ensures List([extra]) in WithNew(wasm, secs, extra)
    decreases |secs|
  {
    hide ContentOf, Extended;
    if secs != [] {
      NewIsThere(wasm, secs[1..], extra);
    }
  }

  // ---- the theorem ----

  /** What comes out, in terms of the sections. */
  lemma Outcome(wasm: Bytes, secs: seq<Section>, extra: Export)
    requires WellFormed(secs) && AllSupported(secs)
    ensures Rewrite(wasm, secs, extra).Some?
    ensures var list := ExportsOf(secs);
      var rebuilt := if list.Some? then Added(list.value, extra) else if AnyTriggers(secs) then [] else [extra];
      OthersC(Rewrite(wasm, secs, extra).value) == Written(Expect(wasm, secs, false), rebuilt)
  {
    RunPayloads(wasm, extra, secs);
    PassFailsOnKind(wasm, extra, INITIAL, secs);
    PassAllEmits(wasm, extra, INITIAL, secs);
    var st := PassAll(wasm, extra, INITIAL, secs).value;
    if ExportsOf(secs).Some? {
      ExportsRebuilt(wasm, extra, INITIAL, secs);
    } else {
      NoExportsRebuilt(wasm, extra, INITIAL, secs);
    }
    var last := Finish(wasm, extra, st);
    OthersWritten(last.emitted, last.rebuilt);
    assert Others([]) + [] + Expect(wasm, secs, false) == Expect(wasm, secs, false);
    hide PassAll, Run, Expect, Written, OthersC, Payloads, WellFormed;
  }

  /**
   For a module with its sections in order: all sections other than custom ones keep their
   place and their bytes, and the export is added where it belongs, if and only if the module
   is one of the good ones.
   */
  lemma KeepsSections(wasm: Bytes, secs: seq<Section>, extra: Export)
    requires WellFormed(secs) && AllSupported(secs)
    ensures Rewrite(wasm, secs, extra).Some?
    ensures OthersC(Rewrite(wasm, secs, extra).value) == Ideal(wasm, secs, extra) <==> Good(secs)
  {
    Outcome(wasm, secs, extra);
    hide Rewrite, OthersC, WellFormed;
    if ExportsOf(secs).Some? {
      var list := ExportsOf(secs).value;
      hide Added, Expect, Written, Extended;
      if Good(secs) {
        GoodExtended(wasm, secs, false, list, extra);
      } else {
        ExpectCounts(wasm, secs, false, Added(list, extra), extra);
        if HasTag(secs) {
          TagComesEarly(secs);
        }
      }
    } else {
      hide Expect, Written, WithNew;
      if Good(secs) {
        GoodWithNew(wasm, secs, extra);
      } else {
        NewIsThere(wasm, secs, extra);
        if Written(Expect(wasm, secs, false), []) == WithNew(wasm, secs, extra) {
          WrittenLists(Expect(wasm, secs, false), [], [extra]);
          assert false;
        }
      }
    }
  }

  /** The name is exported afterwards, once if it was not there before. */
  lemma NameIsAdded(list: seq<Export>, extra: Export)
    ensures Named(Added(list, extra), extra.name)
    ensures list <= Added(list, extra) && Added(Added(list, extra), extra) == Added(list, extra)
    ensures !Named(list, extra.name) ==>
      forall i :: 0 <= i < |Added(list, extra)| && Added(list, extra)[i].name == extra.name ==> i == |list|
  {
    if !Named(list, extra.name) {
      assert Added(list, extra)[|list|].name == extra.name;
    }
  }

  // ---- custom sections ----

  function Customs(es: seq<Emitted>): seq<Bytes> {
    if es == [] then [] else (if es[0].Raw? && es[0].id == CUSTOM then [es[0].data] else []) + Customs(es[1..])
  }

  function CustomsOf(wasm: Bytes, secs: seq<Section>): seq<Bytes> {
    if secs == [] then []
    else (if IsCustom(secs[0]) then [Slice(wasm, secs[0].start, secs[0].end)] else []) + CustomsOf(wasm, secs[1..])
  }

  lemma {:induction false} CustomsAppend(a: seq<Emitted>, b: seq<Emitted>)
    ensures Customs(a + b) == Customs(a) + Customs(b)
    decreases |a|
  {
    if a == [] {
      assert a + b == b;
    } else {
      assert (a + b)[0] == a[0] && (a + b)[1..] == a[1..] + b;
      CustomsAppend(a[1..], b);
    }
  }

  lemma CustomsPush(a: seq<Emitted>, e: Emitted)
    ensures Customs(a + [e]) == if e.Raw? && e.id == CUSTOM then Customs(a) + [e.data] else Customs(a)
  {
    CustomsAppend(a, [e]);
    assert [e][1..] == [];
    assert Customs(a) + [] == Customs(a);
  }

  lemma PassCustoms(wasm: Bytes, extra: Export, st: State, s: Section)
    requires Pass(wasm, extra, st, s).Some?
    ensures Customs(Pass(wasm, extra, st, s).value.emitted)
         == if IsCustom(s) then Customs(st.emitted) + [Slice(wasm, s.start, s.end)] else Customs(st.emitted)
  {
    hide Customs, Slice;
    CustomsPush(st.emitted, NewExport);
    if s.Plain? {
      var st1 := Insert(st, Contents(s.id, s.start, s.end));
      FlushCustoms(wasm, st1);
      CustomsPush(Flush(wasm, st1).emitted, Raw(s.id, Slice(wasm, s.start, s.end)));
      CustomsPush(st1.emitted, Raw(s.id, Slice(wasm, s.start, s.end)));
    }
  }

  lemma FlushCustoms(wasm: Bytes, st: State)
    ensures Customs(Flush(wasm, st).emitted) == Customs(st.emitted)
  {
    if Pending(wasm, st) != [] {
      CustomsPush(st.emitted, Pending(wasm, st)[0]);
    } else {
      assert st.emitted + [] == st.emitted;
    }
  }

  lemma {:induction false} PassKeepsCustoms(wasm: Bytes, extra: Export, st: State, secs: seq<Section>)
    requires PassAll(wasm, extra, st, secs).Some?
    ensures Customs(Finish(wasm, extra, PassAll(wasm, extra, st, secs).value).emitted) == Customs(st.emitted) + CustomsOf(wasm, secs)
    decreases |secs|
  {
    if secs == [] {
      FinishCustoms(wasm, extra, st);
      hide Customs, Finish;
      assert Customs(st.emitted) + [] == Customs(st.emitted);
    } else {
      PassCustoms(wasm, extra, st, secs[0]);
      var st1 := Pass(wasm, extra, st, secs[0]).value;
      hide Pass, Customs, Finish, Slice;
      PassKeepsCustoms(wasm, extra, st1, secs[1..]);
      JoinCustoms(Customs(st.emitted), if IsCustom(secs[0]) then [Slice(wasm, secs[0].start, secs[0].end)] else [], CustomsOf(wasm, secs[1..]));
    }
  }

  lemma JoinCustoms(a: seq<Bytes>, b: seq<Bytes>, c: seq<Bytes>)
    ensures (a + b) + c == a + (b + c) && (b == [] ==> a + b == a)
  {
  }

  lemma FinishCustoms(wasm: Bytes, extra: Export, st: State)
    ensures Customs(Finish(wasm, extra, st).emitted) == Customs(st.emitted)
  {
    FlushCustoms(wasm, st);
    CustomsPush(Flush(wasm, st).emitted, NewExport);
    hide Customs, Flush;
  }

  /** The custom sections of a module, by their contents. */
  function CustomsC(cs: seq<Content>): seq<Bytes> {
    if cs == [] then [] else (if cs[0].Bin? && cs[0].id == CUSTOM then [cs[0].data] else []) + CustomsC(cs[1..])
  }

  lemma {:induction false} CustomsWritten(es: seq<Emitted>, rebuilt: seq<Export>)
    ensures CustomsC(Written(es, rebuilt)) == Customs(es)
    decreases |es|
  {
    if es != [] {
      CustomsWritten(es[1..], rebuilt);
    }
  }

  lemma {:induction false} CustomsRead(wasm: Bytes, secs: seq<Section>)
    ensures CustomsC(AllContents(wasm, secs)) == CustomsOf(wasm, secs)
    decreases |secs|
  {
    hide Slice;
    if secs != [] {
      CustomsRead(wasm, secs[1..]);
    }
  }

  /** The tool fails exactly on an export of a kind it does not know. */
  lemma FailsOnKind(wasm: Bytes, secs: seq<Section>, extra: Export)
    ensures Rewrite(wasm, secs, extra).Some? <==> AllSupported(secs)
  {
    RunPayloads(wasm, extra, secs);
    PassFailsOnKind(wasm, extra, INITIAL, secs);
    hide PassAll, Run, AllSupported, Written, Payloads;
  }

  /** Custom sections all come out, in their order; they may move past the code section. */
  lemma CustomsKept(wasm: Bytes, secs: seq<Section>, extra: Export)
    requires Rewrite(wasm, secs, extra).Some?
    ensures CustomsC(Rewrite(wasm, secs, extra).value) == CustomsC(AllContents(wasm, secs))
  {
    RunPayloads(wasm, extra, secs);
    PassKeepsCustoms(wasm, extra, INITIAL, secs);
    CustomsRead(wasm, secs);
    hide PassAll, Run, Payloads, AllContents;
    var last := Finish(wasm, extra, PassAll(wasm, extra, INITIAL, secs).value);
    CustomsWritten(last.emitted, last.rebuilt);
    assert [] + CustomsOf(wasm, secs) == CustomsOf(wasm, secs);
    hide CustomsC, Written, CustomsOf;
  }

  // ---- doing it twice ----

  /** A code section is followed directly by data, or by nothing. */
  predicate Settled(es: seq<Emitted>) {
    forall i :: 0 <= i < |es| - 1 && es[i].Raw? && es[i].id == CODE ==> es[i + 1].Raw? && es[i + 1].id == DATA
  }

  predicate EndsInCode(es: seq<Emitted>) {
    es != [] && es[|es| - 1].Raw? && es[|es| - 1].id == CODE
  }

  predicate TagFree(es: seq<Emitted>) {
    forall i :: 0 <= i < |es| && es[i].Raw? ==> es[i].id != TAG
  }

  predicate Tidied(es: seq<Emitted>) {
    Settled(es) && !EndsInCode(es) && TagFree(es)
  }

  lemma TidiedPush(es: seq<Emitted>, e: Emitted)
    requires Tidied(es) && (e.Raw? ==> e.id != CODE && e.id != TAG)
    ensures Tidied(es + [e])
  {
  }

  lemma TidiedData(es: seq<Emitted>, code: Emitted, data: Emitted)
    requires Tidied(es) && code.Raw? && code.id == CODE && data.Raw? && data.id == DATA
    ensures Tidied(es + [code] + [data])
  {
  }

  lemma PassTidies(wasm: Bytes, extra: Export, st: State, s: Section)
    requires Tidied(st.emitted) && SectionOk(s) && !(s.Plain? && s.id == TAG) && Pass(wasm, extra, st, s).Some?
    requires st.codeStart.Some? ==> st.sawExport || st.inserted
    ensures Tidied(Pass(wasm, extra, st, s).value.emitted)
  {
    hide Slice, Tidied;
    TidiedPush(st.emitted, NewExport);
    if s.Plain? {
      var st1, e := Insert(st, Contents(s.id, s.start, s.end)), Raw(s.id, Slice(wasm, s.start, s.end));
      TidiedPush(st1.emitted, e);
      var pending := Pending(wasm, st1);
      if pending != [] && s.id == DATA {
        TidiedData(st1.emitted, pending[0], e);
      } else {
        assert st1.emitted + [] == st1.emitted;
      }
    }
  }

  lemma {:induction false} PassAllTidies(wasm: Bytes, extra: Export, st: State, secs: seq<Section>)
    requires WellFormed(secs) && CodeFits(st, secs) && PassAll(wasm, extra, st, secs).Some? && !HasTag(secs) && Tidied(st.emitted)
    ensures var st1 := PassAll(wasm, extra, st, secs).value; Tidied(st1.emitted) && CodeFits(st1, [])
    decreases |secs|
  {
    if secs != [] {
      TailOk(secs);
      PassFits(wasm, extra, st, secs);
      PassTidies(wasm, extra, st, secs[0]);
      var st1 := Pass(wasm, extra, st, secs[0]).value;
      hide Pass, Tidied, CodeFits, WellFormed;
      PassAllTidies(wasm, extra, st1, secs[1..]);
    }
  }

  lemma {:induction false} NoTriggersNoCode(wasm: Bytes, extra: Export, st: State, secs: seq<Section>)
    requires !AnyTriggers(secs) && st.codeStart.None? && PassAll(wasm, extra, st, secs).Some?
    ensures PassAll(wasm, extra, st, secs).value.codeStart.None?
    decreases |secs|
  {
    if secs != [] {
      var st1 := Pass(wasm, extra, st, secs[0]).value;
      assert st1.codeStart.None?;
      hide Pass;
      NoTriggersNoCode(wasm, extra, st1, secs[1..]);
    }
  }

  /** The exports of what comes out of a good module. */
  function NewList(secs: seq<Section>, extra: Export): seq<Export> {
    if ExportsOf(secs).Some? then Added(ExportsOf(secs).value, extra) else [extra]
  }

  lemma NewListStays(secs: seq<Section>, extra: Export)
    requires AllSupported(secs) && extra.kind != OtherKind
    ensures Supported(NewList(secs, extra)) && Added(NewList(secs, extra), extra) == NewList(secs, extra)
  {
    if ExportsOf(secs).Some? {
      NameIsAdded(ExportsOf(secs).value, extra);
      SupportedOf(secs);
    } else {
      assert [extra][0].name == extra.name;
    }
  }

  /** The export ends up in the list of exports: there is one, or nothing makes the tool put in an empty one. */
  predicate Placed(secs: seq<Section>) {
    ExportsOf(secs).Some? || !AnyTriggers(secs)
  }

  /** Everything that comes out of such a module: code directly before data, no tags, exports. */
  lemma OutputIsSettled(wasm: Bytes, secs: seq<Section>, extra: Export)
    requires WellFormed(secs) && AllSupported(secs) && !HasTag(secs) && Placed(secs)
    ensures exists es ::
      && Settled(es) && TagFree(es) && NewExport in es
      && Rewrite(wasm, secs, extra) == Some(Written(es, NewList(secs, extra)))
  {
    RunPayloads(wasm, extra, secs);
    PassFailsOnKind(wasm, extra, INITIAL, secs);
    PassAllTidies(wasm, extra, INITIAL, secs);
    hide Slice, Run, Written, WellFormed, Payloads, Added, HasTag, EmptyCode, AnyTriggers;
    if ExportsOf(secs).None? {
      var es := SettledWithout(wasm, secs, extra);
    } else {
      var es := SettledWith(wasm, secs, extra);
    }
  }

  lemma SettledWithout(wasm: Bytes, secs: seq<Section>, extra: Export) returns (es: seq<Emitted>)
    requires ExportsOf(secs).None? && !AnyTriggers(secs) && PassAll(wasm, extra, INITIAL, secs).Some?
    requires Tidied(PassAll(wasm, extra, INITIAL, secs).value.emitted)
    ensures var last := Finish(wasm, extra, PassAll(wasm, extra, INITIAL, secs).value);
      last.emitted == es && last.rebuilt == [extra] && Settled(es) && TagFree(es) && NewExport in es
  {
    NoTriggersNoCode(wasm, extra, INITIAL, secs);
    NoExportsRebuilt(wasm, extra, INITIAL, secs);
    var st := PassAll(wasm, extra, INITIAL, secs).value;
    hide PassAll, Slice, Tidied;
    TidiedPush(st.emitted, NewExport);
    assert st.emitted + [] == st.emitted;
    es := st.emitted + [NewExport];
    assert es[|st.emitted|] == NewExport;
    assert Settled(es) && TagFree(es) by { TidiedMeans(es); }
  }

  lemma SettledWith(wasm: Bytes, secs: seq<Section>, extra: Export) returns (es: seq<Emitted>)
    requires WellFormed(secs) && ExportsOf(secs).Some? && PassAll(wasm, extra, INITIAL, secs).Some?
    requires Tidied(PassAll(wasm, extra, INITIAL, secs).value.emitted)
    ensures var last := Finish(wasm, extra, PassAll(wasm, extra, INITIAL, secs).value);
      && last.emitted == es && last.rebuilt == Added(ExportsOf(secs).value, extra)
      && Settled(es) && TagFree(es) && NewExport in es
  {
    ExportsRebuilt(wasm, extra, INITIAL, secs);
    SawMeansEmitted(wasm, extra, INITIAL, secs);
    var st := PassAll(wasm, extra, INITIAL, secs).value;
    hide PassAll, Slice, WellFormed, Added;
    es := st.emitted + Pending(wasm, st);
  }

  lemma TidiedMeans(es: seq<Emitted>)
    requires Tidied(es)
    ensures Settled(es) && TagFree(es)
  {
  }

  lemma {:induction false} SawMeansEmitted(wasm: Bytes, extra: Export, st: State, secs: seq<Section>)
    requires PassAll(wasm, extra, st, secs).Some? && (st.sawExport ==> NewExport in st.emitted)
    ensures var st1 := PassAll(wasm, extra, st, secs).value; st1.sawExport ==> NewExport in st1.emitted
    decreases |secs|
  {
    if secs != [] {
      var st1 := Pass(wasm, extra, st, secs[0]).value;
      assert st1.sawExport ==> NewExport in st1.emitted;
      hide Pass;
      SawMeansEmitted(wasm, extra, st1, secs[1..]);
    }
  }

  /** The sections of a module one by one. */
  function Each(wasm: Bytes, secs: seq<Section>): seq<Emitted> {
    if secs == [] then []
    else [if secs[0].Exports? then NewExport
          else if secs[0].Code? then Raw(CODE, Slice(wasm, secs[0].start, secs[0].end))
          else Raw(secs[0].id, Slice(wasm, secs[0].start, secs[0].end))] + Each(wasm, secs[1..])
  }

  predicate SettledSections(secs: seq<Section>) {
    forall i :: 0 <= i < |secs| - 1 && secs[i].Code? ==> secs[i + 1].Plain? && secs[i + 1].id == DATA
  }

  /** A code section's bounds are only pending when data comes next, or nothing. */
  predicate PendingOk(st: State, secs: seq<Section>) {
    && (st.codeStart.None? ==> st.codeEnd.None?)
    && (st.codeStart.Some? ==> st.codeEnd.Some? && (secs == [] || (secs[0].Plain? && secs[0].id == DATA)))
  }

  /** No export section is put in early, now or later. */
  predicate NoInsertion(st: State, secs: seq<Section>) {
    st.sawExport || st.inserted || (ExportsOf(secs).Some? && !HasTag(secs))
  }

  lemma PassPlainly(wasm: Bytes, extra: Export, st: State, secs: seq<Section>)
    requires WellFormed(secs) && secs != [] && SettledSections(secs) && !EmptyCode(secs) && !HasTag(secs)
    requires PendingOk(st, secs) && NoInsertion(st, secs) && Pass(wasm, extra, st, secs[0]).Some?
    ensures var st1 := Pass(wasm, extra, st, secs[0]).value;
      && PendingOk(st1, secs[1..]) && NoInsertion(st1, secs[1..])
      && st1.emitted + Pending(wasm, st1) == st.emitted + Pending(wasm, st) + [Each(wasm, secs)[0]]
  {
    var s, st1 := secs[0], Pass(wasm, extra, st, secs[0]).value;
    if !st.sawExport && !st.inserted && !s.Exports? && !IsCustom(s) {
      RankBefore(secs);
    }
    assert Triggers(s) ==> st.sawExport || st.inserted;
    hide WellFormed, Supported, Named, Slice;
    if s.Plain? && s.id == DATA {
      assert st1.emitted == st.emitted + Pending(wasm, st) + [Each(wasm, secs)[0]];
    } else {
      assert Pending(wasm, st) == [];
    }
  }

  lemma {:induction false} PassAllPlainly(wasm: Bytes, extra: Export, st: State, secs: seq<Section>)
    requires WellFormed(secs) && SettledSections(secs) && !EmptyCode(secs) && !HasTag(secs)
    requires PendingOk(st, secs) && NoInsertion(st, secs) && PassAll(wasm, extra, st, secs).Some?
    ensures Finish(wasm, extra, PassAll(wasm, extra, st, secs).value).emitted == st.emitted + Pending(wasm, st) + Each(wasm, secs)
    decreases |secs|
  {
    if secs == [] {
      assert st.emitted + Pending(wasm, st) + [] == st.emitted + Pending(wasm, st);
    } else {
      TailOk(secs);
      PassPlainly(wasm, extra, st, secs);
      var st1 := Pass(wasm, extra, st, secs[0]).value;
      assert SettledSections(secs[1..]);
      var first, rest := Each(wasm, secs)[0], Each(wasm, secs[1..]);
      assert Each(wasm, secs) == [first] + rest;
      hide Pass, Finish, WellFormed, PendingOk, NoInsertion, Pending, SettledSections;
      PassAllPlainly(wasm, extra, st1, secs[1..]);
      Shift(st.emitted + Pending(wasm, st), [first], rest);
    }
  }

  lemma {:induction false} EachWritten(wasm: Bytes, secs: seq<Section>, list: seq<Export>)
    requires forall i :: 0 <= i < |secs| && secs[i].Exports? ==> secs[i].list == list
    ensures Written(Each(wasm, secs), list) == AllContents(wasm, secs)
    decreases |secs|
  {
    hide Slice;
    if secs != [] {
      EachWritten(wasm, secs[1..], list);
      var c := Each(wasm, secs)[0];
      assert Each(wasm, secs) == [c] + Each(wasm, secs[1..]) && ([c] + Each(wasm, secs[1..]))[1..] == Each(wasm, secs[1..]);
    }
  }

  lemma {:induction false} AllContentsAt(wasm: Bytes, secs: seq<Section>, i: nat)
    requires i < |secs|
    ensures |AllContents(wasm, secs)| == |secs| && AllContents(wasm, secs)[i] == ContentOf(wasm, secs[i])
    decreases |secs|
  {
    hide ContentOf;
    AllContentsSize(wasm, secs);
    if i > 0 {
      AllContentsAt(wasm, secs[1..], i - 1);
    }
  }

  lemma {:induction false} AllContentsSize(wasm: Bytes, secs: seq<Section>)
    ensures |AllContents(wasm, secs)| == |secs|
    decreases |secs|
  {
    if secs != [] {
      AllContentsSize(wasm, secs[1..]);
    }
  }

  lemma {:induction false} WrittenAt(es: seq<Emitted>, rebuilt: seq<Export>, i: nat)
    requires i < |es|
    ensures |Written(es, rebuilt)| == |es|
    ensures Written(es, rebuilt)[i] == if es[i].NewExport? then List(rebuilt) else Bin(es[i].id, es[i].data)
    decreases |es|
  {
    WrittenSize(es, rebuilt);
    if i > 0 {
      WrittenAt(es[1..], rebuilt, i - 1);
    }
  }

  lemma {:induction false} WrittenSize(es: seq<Emitted>, rebuilt: seq<Export>)
    ensures |Written(es, rebuilt)| == |es|
    decreases |es|
  {
    if es != [] {
      WrittenSize(es[1..], rebuilt);
    }
  }

  /** A module read back from what was written: section by section the same. */
  lemma ReadBack(es: seq<Emitted>, list: seq<Export>, wasm: Bytes, secs: seq<Section>, i: nat)
    requires Written(es, list) == AllContents(wasm, secs) && WellFormed(secs) && i < |secs|
    ensures |es| == |secs|
    ensures secs[i].Exports? <==> es[i].NewExport?
    ensures secs[i].Exports? ==> secs[i].list == list
    ensures es[i].Raw? ==> es[i].id == if secs[i].Code? then CODE else secs[i].id
    ensures secs[i].Code? <==> es[i].Raw? && es[i].id == CODE
  {
    WrittenSize(es, list);
    AllContentsSize(wasm, secs);
    WrittenAt(es, list, i);
    AllContentsAt(wasm, secs, i);
    assert SectionOk(secs[i]);
    hide Written, AllContents, Slice, WellFormed;
  }

  lemma {:induction false} TagsAt(secs: seq<Section>)
    requires forall i :: 0 <= i < |secs| ==> !(secs[i].Plain? && secs[i].id == TAG)
    ensures !HasTag(secs)
    decreases |secs|
  {
    if secs != [] {
      TagsAt(secs[1..]);
    }
  }

  lemma {:induction false} ExportsAt(secs: seq<Section>, i: nat, list: seq<Export>)
    requires i < |secs| && secs[i].Exports?
    requires forall j :: 0 <= j < |secs| && secs[j].Exports? ==> secs[j].list == list
    ensures ExportsOf(secs) == Some(list)
    decreases i
  {
    if !secs[0].Exports? {
      ExportsAt(secs[1..], i - 1, list);
    }
  }

  lemma {:induction false} SupportedAt(secs: seq<Section>, list: seq<Export>)
    requires Supported(list) && forall j :: 0 <= j < |secs| && secs[j].Exports? ==> secs[j].list == list
    ensures AllSupported(secs)
    decreases |secs|
  {
    if secs != [] {
      SupportedAt(secs[1..], list);
    }
  }

  lemma {:induction false} SupportedOf(secs: seq<Section>)
    requires AllSupported(secs) && ExportsOf(secs).Some?
    ensures Supported(ExportsOf(secs).value)
    decreases |secs|
  {
    if !secs[0].Exports? {
      SupportedOf(secs[1..]);
    }
  }

  /** The module read back, run through the tool. */
  lemma SecondRun(es: seq<Emitted>, list: seq<Export>, extra: Export, wasm: Bytes, secs: seq<Section>)
    requires Settled(es) && TagFree(es) && NewExport in es && Written(es, list) == AllContents(wasm, secs)
    requires WellFormed(secs) && !EmptyCode(secs) && Supported(list) && Added(list, extra) == list
    ensures Rewrite(wasm, secs, extra) == Some(AllContents(wasm, secs))
  {
    WrittenSize(es, list);
    AllContentsSize(wasm, secs);
    forall i | 0 <= i < |secs|
      ensures secs[i].Exports? <==> es[i].NewExport?
      ensures secs[i].Exports? ==> secs[i].list == list
      ensures !(secs[i].Plain? && secs[i].id == TAG)
      ensures i < |secs| - 1 && secs[i].Code? ==> secs[i + 1].Plain? && secs[i + 1].id == DATA
    {
      ReadBack(es, list, wasm, secs, i);
      if i < |secs| - 1 {
        ReadBack(es, list, wasm, secs, i + 1);
      }
    }
    TagsAt(secs);
    SupportedAt(secs, list);
    var k :| 0 <= k < |es| && es[k] == NewExport;
    ExportsAt(secs, k, list);
    RunPayloads(wasm, extra, secs);
    PassFailsOnKind(wasm, extra, INITIAL, secs);
    assert SettledSections(secs);
    hide Written, AllContents, WellFormed, HasTag, EmptyCode, Settled, TagFree, Supported, Added, Run, PassAll, Payloads;
    PassAllPlainly(wasm, extra, INITIAL, secs);
    ExportsRebuilt(wasm, extra, INITIAL, secs);
    EachWritten(wasm, secs, list);
    assert [] + [] + Each(wasm, secs) == Each(wasm, secs);
  }

  // ---- tags come out behind an export section ----

  predicate TagsLate(es: seq<Emitted>) {
    forall j :: 0 <= j < |es| && es[j].Raw? && es[j].id == TAG ==> NewExport in es[..j]
  }

  predicate Noted(st: State) {
    st.inserted || st.sawExport ==> NewExport in st.emitted
  }

  predicate TagOut(es: seq<Emitted>) {
    exists j :: 0 <= j < |es| && es[j].Raw? && es[j].id == TAG
  }

  lemma TagsLatePush(es: seq<Emitted>, e: Emitted)
    requires TagsLate(es) && (e.Raw? && e.id == TAG ==> NewExport in es)
    ensures TagsLate(es + [e]) && (NewExport in es ==> NewExport in es + [e]) && (TagOut(es) ==> TagOut(es + [e]))
    ensures e == NewExport ==> NewExport in es + [e]
    ensures e.Raw? && e.id == TAG ==> TagOut(es + [e])
  {
    var fs := es + [e];
    assert fs[|es|] == e && fs[..|es|] == es;
    forall j | 0 <= j < |fs| && fs[j].Raw? && fs[j].id == TAG ensures NewExport in fs[..j] {
      if j < |es| {
        assert es[j] == fs[j] && fs[..j] == es[..j];
      }
    }
    if TagOut(es) {
      var j :| 0 <= j < |es| && es[j].Raw? && es[j].id == TAG;
      assert fs[j] == es[j];
    }
  }

  lemma FlushTags(wasm: Bytes, st: State)
    requires TagsLate(st.emitted) && Noted(st)
    ensures var st1 := Flush(wasm, st); TagsLate(st1.emitted) && Noted(st1) && (TagOut(st.emitted) ==> TagOut(st1.emitted))
  {
    hide Slice;
    if Pending(wasm, st) != [] {
      TagsLatePush(st.emitted, Pending(wasm, st)[0]);
    } else {
      assert st.emitted + [] == st.emitted;
    }
  }

  lemma InsertTags(st: State, p: Payload)
    requires TagsLate(st.emitted) && Noted(st)
    ensures var st1 := Insert(st, p); TagsLate(st1.emitted) && Noted(st1) && (TagOut(st.emitted) ==> TagOut(st1.emitted))
    ensures InsertBefore(p) ==> NewExport in Insert(st, p).emitted
  {
    TagsLatePush(st.emitted, NewExport);
    hide TagsLate, TagOut;
  }

  lemma PassTags(wasm: Bytes, extra: Export, st: State, s: Section)
    requires TagsLate(st.emitted) && Noted(st) && Pass(wasm, extra, st, s).Some?
    ensures var st1 := Pass(wasm, extra, st, s).value; TagsLate(st1.emitted) && Noted(st1)
    ensures TagOut(st.emitted) || (s.Plain? && s.id == TAG) ==> TagOut(Pass(wasm, extra, st, s).value.emitted)
  {
    match s
    case Plain(id, start, end) =>
      var st1, e := Insert(st, Contents(id, start, end)), Raw(id, Slice(wasm, start, end));
      InsertTags(st, Contents(id, start, end));
      FlushTags(wasm, st1);
      var st2 := if id == DATA || id == TAG then Flush(wasm, st1) else st1;
      assert id == TAG ==> NewExport in st2.emitted by { assert id == TAG ==> st1.inserted || st1.sawExport; }
      hide Insert, Flush, TagsLate, TagOut, Slice;
      TagsLatePush(st2.emitted, e);
    case Exports(list) =>
      InsertTags(st, ExportList(list));
      TagsLatePush(Insert(st, ExportList(list)).emitted, NewExport);
      hide TagsLate, TagOut, Supported, Named;
    case Code(start, _, _) =>
      InsertTags(st, CodeStart(start));
  }

  lemma {:induction false} PassAllTags(wasm: Bytes, extra: Export, st: State, secs: seq<Section>)
    requires TagsLate(st.emitted) && Noted(st) && PassAll(wasm, extra, st, secs).Some?
    ensures var st1 := PassAll(wasm, extra, st, secs).value; TagsLate(st1.emitted) && Noted(st1)
    ensures TagOut(st.emitted) || HasTag(secs) ==> TagOut(PassAll(wasm, extra, st, secs).value.emitted)
    decreases |secs|
  {
    if secs != [] {
      PassTags(wasm, extra, st, secs[0]);
      hide Pass, TagsLate, TagOut, Noted;
      PassAllTags(wasm, extra, Pass(wasm, extra, st, secs[0]).value, secs[1..]);
    }
  }

  /** What comes out of the tool, as far as tags go. */
  lemma OutputTags(wasm: Bytes, secs: seq<Section>, extra: Export) returns (es: seq<Emitted>)
    requires AllSupported(secs)
    ensures PassAll(wasm, extra, INITIAL, secs).Some?
    ensures var last := Finish(wasm, extra, PassAll(wasm, extra, INITIAL, secs).value);
      es == last.emitted && Rewrite(wasm, secs, extra) == Some(Written(es, last.rebuilt))
    ensures TagsLate(es) && NewExport in es && (HasTag(secs) ==> TagOut(es))
  {
    RunPayloads(wasm, extra, secs);
    PassFailsOnKind(wasm, extra, INITIAL, secs);
    PassAllTags(wasm, extra, INITIAL, secs);
    hide PassAll, Run, Payloads, HasTag, AllSupported, Written;
    var st := PassAll(wasm, extra, INITIAL, secs).value;
    FlushTags(wasm, st);
    TagsLatePush(Flush(wasm, st).emitted, NewExport);
    hide TagsLate, TagOut;
    es := Finish(wasm, extra, st).emitted;
  }

  /** With a tag section the output is not in order, so what the parser accepts has come without one. */
  lemma NoTags(es: seq<Emitted>, list: seq<Export>, wasm: Bytes, secs: seq<Section>)
    requires TagsLate(es) && Written(es, list) == AllContents(wasm, secs) && WellFormed(secs)
    ensures !TagOut(es)
  {
    if TagOut(es) {
      var j :| 0 <= j < |es| && es[j].Raw? && es[j].id == TAG;
      var i :| 0 <= i < |es[..j]| && es[..j][i] == NewExport;
      WrittenSize(es, list);
      AllContentsSize(wasm, secs);
      ReadBack(es, list, wasm, secs, i);
      ReadBack(es, list, wasm, secs, j);
      hide Written, AllContents;
      assert false;
    }
  }

  // ---- the second run ----

  /** An empty list of exports was put in: now the export is added to it. */
  lemma SecondRunAdds(es: seq<Emitted>, extra: Export, wasm: Bytes, secs: seq<Section>)
    requires NewExport in es && Written(es, []) == AllContents(wasm, secs) && WellFormed(secs)
    ensures Rewrite(wasm, secs, extra) != Some(AllContents(wasm, secs))
  {
    WrittenSize(es, []);
    AllContentsSize(wasm, secs);
    forall i | 0 <= i < |secs|
      ensures secs[i].Exports? <==> es[i].NewExport?
      ensures secs[i].Exports? ==> secs[i].list == []
    {
      ReadBack(es, [], wasm, secs, i);
    }
    SupportedAt(secs, []);
    var k :| 0 <= k < |es| && es[k] == NewExport;
    ExportsAt(secs, k, []);
    hide Written, WellFormed;
    var fs := OutputTags(wasm, secs, extra);
    ExportsRebuilt(wasm, extra, INITIAL, secs);
    hide Rewrite, PassAll, TagsLate, TagOut;
    assert Added([], extra) == [extra];
    var m :| 0 <= m < |fs| && fs[m] == NewExport;
    WrittenAt(fs, [extra], m);
    if Written(fs, [extra]) == AllContents(wasm, secs) {
      AllContentsAt(wasm, secs, m);
    }
  }

  /**
   Adding the same export again changes nothing at all, custom sections included, if and only
   if the module had exports or nothing that must follow them; `secs1` is the new module as the
   parser sees it, in order and with function bodies in its code section.
   */
  lemma Idempotent(wasm: Bytes, secs: seq<Section>, extra: Export, wasm1: Bytes, secs1: seq<Section>)
    requires WellFormed(secs) && AllSupported(secs) && extra.kind != OtherKind
    requires WellFormed(secs1) && !EmptyCode(secs1) && Rewrite(wasm, secs, extra) == Some(AllContents(wasm1, secs1))
    ensures Rewrite(wasm1, secs1, extra) == Rewrite(wasm, secs, extra) <==> Placed(secs)
  {
    var fs := OutputTags(wasm, secs, extra);
    var rebuilt := Finish(wasm, extra, PassAll(wasm, extra, INITIAL, secs).value).rebuilt;
    NoTags(fs, rebuilt, wasm1, secs1);
    if Placed(secs) {
      OutputIsSettled(wasm, secs, extra);
      NewListStays(secs, extra);
      hide Rewrite, WellFormed, Written, AllContents, Settled, TagFree, EmptyCode, AllSupported, Added, NewList, Placed;
      var list := NewList(secs, extra);
      var es :| Settled(es) && TagFree(es) && NewExport in es && Rewrite(wasm, secs, extra) == Some(Written(es, list));
      SecondRun(es, list, extra, wasm1, secs1);
    } else {
      NoExportsRebuilt(wasm, extra, INITIAL, secs);
      hide Rewrite, WellFormed, Written, AllContents, PassAll;
      assert rebuilt == [];
      SecondRunAdds(fs, extra, wasm1, secs1);
    }
  }

  // ---- modules the tool damages ----

  /** Code and no exports: an empty export section is put in, and the export is lost. */
  lemma CodeWithoutExports(x: bv8, extra: Export)
    ensures Rewrite([x], [Code(0, 1, [1])], extra) == Some([List([]), Bin(CODE, [x])])
  {
    var s := Code(0, 1, [1]);
    RunPayloads([x], extra, [s]);
    assert [] + [NewExport] == [NewExport];
    var st := INITIAL.(emitted := [NewExport], inserted := true, codeStart := Some(0), codeEnd := Some(1));
    assert Pass([x], extra, INITIAL, s) == Some(st);
    OnePass([x], extra, INITIAL, s);
    assert Slice([x], 0, 1) == [x];
    WriteTwo(NewExport, Raw(CODE, [x]), []);
    hide Run, PassAll, Written, Payloads;
    assert Finish([x], extra, st).emitted == [NewExport, Raw(CODE, [x])];
  }

  /** Tags and exports: the export section comes out twice. */
  lemma TagBeforeExports(x: bv8, extra: Export)
    ensures Rewrite([x], [Plain(TAG, 0, 1), Exports([])], extra) == Some([List([extra]), Bin(TAG, [x]), List([extra])])
  {
    var s, e := Plain(TAG, 0, 1), Exports([]);
    RunPayloads([x], extra, [s, e]);
    var st1 := TagPasses(x, extra);
    WriteThree(NewExport, Raw(TAG, [x]), NewExport, [extra]);
    assert st1.emitted + [] == st1.emitted;
    hide Run, PassAll, Payloads, Written;
  }

  lemma TagPasses(x: bv8, extra: Export) returns (st1: State)
    ensures PassAll([x], extra, INITIAL, [Plain(TAG, 0, 1), Exports([])]) == Some(st1)
    ensures st1 == State([NewExport, Raw(TAG, [x]), NewExport], true, true, [extra], false, None, None)
  {
    var s, e := Plain(TAG, 0, 1), Exports([]);
    assert Slice([x], 0, 1) == [x];
    assert [] + [NewExport] == [NewExport] && [NewExport] + [] + [Raw(TAG, [x])] == [NewExport, Raw(TAG, [x])];
    var st := INITIAL.(emitted := [NewExport, Raw(TAG, [x])], inserted := true);
    assert Pass([x], extra, INITIAL, s) == Some(st);
    var none: seq<Export> := [];
    assert none + none + [extra] == [extra] && st.emitted + [NewExport] == [NewExport, Raw(TAG, [x]), NewExport];
    st1 := st.(sawExport := true, rebuilt := [extra], emitted := [NewExport, Raw(TAG, [x]), NewExport]);
    assert Pass([x], extra, st, e) == Some(st1);
    hide Pass;
    assert [s, e][1..] == [e];
    OnePass([x], extra, st, e);
  }

  lemma OnePass(wasm: Bytes, extra: Export, st: State, s: Section)
    ensures PassAll(wasm, extra, st, [s]) == Pass(wasm, extra, st, s)
  {
    hide Pass;
    assert [s][1..] == [];
  }

  lemma WriteThree(a: Emitted, b: Emitted, c: Emitted, list: seq<Export>)
    requires a.NewExport? && b.Raw? && c.NewExport?
    ensures Written([a, b, c], list) == [List(list), Bin(b.id, b.data), List(list)]
  {
    WriteTwo(b, c, list);
    assert [a, b, c][1..] == [b, c];
    assert Written([a, b, c], list) == [List(list)] + Written([b, c], list);
  }

  lemma WriteTwo(a: Emitted, b: Emitted, list: seq<Export>)
    ensures Written([a, b], list)
         == [if a.NewExport? then List(list) else Bin(a.id, a.data), if b.NewExport? then List(list) else Bin(b.id, b.data)]
  {
    assert [a, b][1..] == [b] && [b][1..] == [];
    var y := if b.NewExport? then List(list) else Bin(b.id, b.data);
    assert Written([b], list) == [y] + [] == [y];
  }
}
