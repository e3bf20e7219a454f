/**
 The tables the parser builds from a tree of parsers: getopt's short-option string, its long
 options, and one group per parser. Sizes are computed in one recursion and the tables
 filled in another.
 */
module ArgpTables {
  import opened Options
  import opened ArgpTypes
  import opened ArgpHol
  import opened ArgpPack
  import ArgpOrder

  const COLON: int := 58
  const MINUS: int := 45
  const PLUS: int := 43

  datatype HasArg = NoArgument | RequiredArgument | OptionalArgument

  datatype LongOpt = LongOpt(name: Str, hasArg: HasArg, val: int)

  /** `shortEnd` is the position in the string after the group's own options. */
  datatype Group = Group(owner: Path, hasParser: bool, shortEnd: nat, parent: Option<nat>, parentIndex: nat, inputs: nat)

  datatype Tables = Tables(shorts: seq<int>, longs: seq<LongOpt>, groups: seq<Group>, inputs: nat)

  // ---- filling ----

  function ArgOf(base: Opt): HasArg {
    if !base.hasArg then NoArgument else if base.argOptional then OptionalArgument else RequiredArgument
  }

  /** An option's characters: its key, and a colon or two if it takes an argument. */
  function ShortChars(base: Opt, opt: Opt): (s: seq<int>)
    ensures |s| <= 3
  {
    if base.docOnly || !IsShort(opt) then []
    else if !base.hasArg then [opt.key]
    else if !base.argOptional then [opt.key, COLON]
    else [opt.key, COLON, COLON]
  }

  predicate HasLong(longs: seq<LongOpt>, name: Str) {
    exists i :: 0 <= i < |longs| && longs[i].name == name
  }

  /** The key a long option stands for: its own, or that of the option it is an alias of. */
  function LongKey(base: Opt, opt: Opt): int {
    if opt.key != 0 then opt.key else base.key
  }

  function LongsOf(longs: seq<LongOpt>, base: Opt, opt: Opt, g: nat): seq<LongOpt> {
    if base.docOnly || opt.name.None? || HasLong(longs, opt.name.value) then longs
    else longs + [LongOpt(opt.name.value, ArgOf(base), Pack(g, LongKey(base, opt)))]
  }

  /** The most recent option that is not an alias. */
  function Real(base: Opt, opt: Opt): Opt {
    if opt.alias then base else opt
  }

  function AddOptions(t: Tables, base: Opt, opts: seq<Opt>, g: nat): Tables
    decreases |opts|
  {
    if opts == [] then t
    else
      var r := Real(base, opts[0]);
      AddOptions(t.(shorts := t.shorts + ShortChars(r, opts[0]), longs := LongsOf(t.longs, r, opts[0], g)),
                 r, opts[1..], g)
  }

  predicate HasGroup(a: Argp) {
    a.options.Some? || a.hasParser
  }

  /** A parser's own options and its group. */
  function AddGroup(a: Argp, path: Path, parent: Option<nat>, index: nat, t: Tables): Tables {
    var opts := OptionsOf(a);
    var t1 := if opts == [] then t else AddOptions(t, opts[0], opts, |t.groups|);
    t1.(groups := t1.groups + [Group(path, a.hasParser, |t1.shorts|, parent, index, t1.inputs)],
        inputs := t1.inputs + |a.children|)
  }

  /** `convert_options`. */
  function Convert(a: Argp, path: Path, parent: Option<nat>, index: nat, t: Tables): Tables
    decreases a, 0
  {
    if HasGroup(a) then ConvertChildren(a.children, path, Some(|t.groups|), 0, AddGroup(a, path, parent, index, t))
    else ConvertChildren(a.children, path, None, 0, t)
  }

  function ConvertChildren(cs: seq<Child>, path: Path, parent: Option<nat>, index: nat, t: Tables): Tables
    decreases cs, 0
  {
    if cs == [] then t
    else ConvertChildren(cs[1..], path, parent, index + 1, ConvertChild(cs[0], path, parent, index, t))
  }

  function ConvertChild(c: Child, path: Path, parent: Option<nat>, index: nat, t: Tables): Tables
    decreases c, 0
  {
    Convert(c.argp, path + [index], parent, index, t)
  }

  // ---- sizes ----

  datatype Sizes = Sizes(shortLen: nat, longLen: nat, numGroups: nat, numInputs: nat)

  function Plus(a: Sizes, b: Sizes): Sizes {
    Sizes(a.shortLen + b.shortLen, a.longLen + b.longLen, a.numGroups + b.numGroups, a.numInputs + b.numInputs)
  }

  /** `calc_sizes`. */
  function SizeOf(a: Argp): Sizes
    decreases a, 0
  {
    Plus(OwnSize(a), ChildrenSize(a.children))
  }

  function OwnSize(a: Argp): Sizes {
    var n := |OptionsOf(a)|;
    if HasGroup(a) then Sizes(3 * n, n, 1, 0) else Sizes(0, 0, 0, 0)
  }

  function ChildrenSize(cs: seq<Child>): Sizes
    decreases cs, 0
  {
    if cs == [] then Sizes(0, 0, 0, 0)
    else Plus(Plus(ChildSize(cs[0]), Sizes(0, 0, 0, 1)), ChildrenSize(cs[1..]))
  }

  function ChildSize(c: Child): Sizes
    decreases c, 0
  {
    SizeOf(c.argp)
  }

  /** `t1` extends `t` by no more than `s`, and by exactly its groups. */
  predicate Within(t: Tables, t1: Tables, s: Sizes) {
    && t.shorts <= t1.shorts && t.longs <= t1.longs && t.groups <= t1.groups
    && |t1.shorts| <= |t.shorts| + s.shortLen && |t1.longs| <= |t.longs| + s.longLen
    && |t1.groups| == |t.groups| + s.numGroups
    && t.inputs <= t1.inputs
  }

  lemma {:induction false} OptionsFit(t: Tables, base: Opt, opts: seq<Opt>, g: nat)
    ensures var t1 := AddOptions(t, base, opts, g);
      Within(t, t1, Sizes(3 * |opts|, |opts|, 0, 0)) && t1.inputs == t.inputs
    decreases |opts|
  {
    if opts != [] {
      var r := Real(base, opts[0]);
      OptionsFit(t.(shorts := t.shorts + ShortChars(r, opts[0]), longs := LongsOf(t.longs, r, opts[0], g)), r, opts[1..], g);
    }
  }

  lemma GroupFits(a: Argp, path: Path, parent: Option<nat>, index: nat, t: Tables)
    ensures var t1 := AddGroup(a, path, parent, index, t); var n := |OptionsOf(a)|;
      Within(t, t1, Sizes(3 * n, n, 1, 0)) && t1.inputs == t.inputs + |a.children|
  {
    var opts := OptionsOf(a);
    if opts != [] {
      OptionsFit(t, opts[0], opts, |t.groups|);
    }
  }

  /** The tables fit the computed sizes: groups exactly, the rest at most. */
  lemma {:induction false} ConvertFits(a: Argp, path: Path, parent: Option<nat>, index: nat, t: Tables)
    ensures var t1 := Convert(a, path, parent, index, t);
      Within(t, t1, SizeOf(a)) && t1.inputs <= t.inputs + SizeOf(a).numInputs
    decreases a, 0
  {
    if HasGroup(a) {
      GroupFits(a, path, parent, index, t);
      ChildrenFit(a.children, path, Some(|t.groups|), 0, AddGroup(a, path, parent, index, t));
    } else {
      ChildrenFit(a.children, path, None, 0, t);
    }
  }

  /** Children's own inputs; the inputs their parent reserved for them are counted with it. */
  lemma {:induction false} ChildrenFit(cs: seq<Child>, path: Path, parent: Option<nat>, index: nat, t: Tables)
    ensures var t1 := ConvertChildren(cs, path, parent, index, t);
      Within(t, t1, ChildrenSize(cs)) && t1.inputs + |cs| <= t.inputs + ChildrenSize(cs).numInputs
    decreases cs, 0
  {
    if cs != [] {
      ChildFits(cs[0], path, parent, index, t);
      ChildrenFit(cs[1..], path, parent, index + 1, ConvertChild(cs[0], path, parent, index, t));
    }
  }

  lemma {:induction false} ChildFits(c: Child, path: Path, parent: Option<nat>, index: nat, t: Tables)
    ensures var t1 := ConvertChild(c, path, parent, index, t);
      Within(t, t1, ChildSize(c)) && t1.inputs <= t.inputs + ChildSize(c).numInputs
    decreases c, 0
  {
    ConvertFits(c.argp, path + [index], parent, index, t);
  }

  // ---- what is allocated ----

  datatype Flags = Flags(inOrder: bool, noArgs: bool)

  function Prefix(flags: Flags): seq<int> {
    if flags.inOrder then [MINUS] else if flags.noArgs then [PLUS] else []
  }

  /** `parser_convert`. */
  function ParserConvert(a: Argp, flags: Flags): Tables {
    Convert(a, [], None, 0, Tables(Prefix(flags), [], [], 0))
  }

  /** The bytes allocated for the short-option string, terminator included. */
  function ShortSpace(a: Argp, flags: Flags): nat {
    (if flags.noArgs then 0 else 1) + SizeOf(a).shortLen + 1
  }

  /** Every option of the list is a short option with an optional argument. */
  predicate AllFull(base: Opt, opts: seq<Opt>)
    decreases |opts|
  {
    opts == [] || (|ShortChars(Real(base, opts[0]), opts[0])| == 3 && AllFull(Real(base, opts[0]), opts[1..]))
  }

  /** The same for every parser of a tree. */
  predicate TreeFull(a: Argp)
    decreases a, 0
  {
    (OptionsOf(a) == [] || AllFull(OptionsOf(a)[0], OptionsOf(a))) && ChildrenFull(a.children)
  }

  predicate ChildrenFull(cs: seq<Child>)
    decreases cs, 0
  {
    cs == [] || (ChildFull(cs[0]) && ChildrenFull(cs[1..]))
  }

  predicate ChildFull(c: Child)
    decreases c, 0
  {
    TreeFull(c.argp)
  }

  lemma {:induction false} OptionsFull(t: Tables, base: Opt, opts: seq<Opt>, g: nat)
    ensures |AddOptions(t, base, opts, g).shorts| == |t.shorts| + 3 * |opts| <==> AllFull(base, opts)
    decreases |opts|
  {
    OptionsFit(t, base, opts, g);
    if opts != [] {
      var r := Real(base, opts[0]);
      var t1 := t.(shorts := t.shorts + ShortChars(r, opts[0]), longs := LongsOf(t.longs, r, opts[0], g));
      OptionsFull(t1, r, opts[1..], g);
      OptionsFit(t1, r, opts[1..], g);
    }
  }

  lemma {:induction false} ConvertFull(a: Argp, path: Path, parent: Option<nat>, index: nat, t: Tables)
    ensures |Convert(a, path, parent, index, t).shorts| == |t.shorts| + SizeOf(a).shortLen <==> TreeFull(a)
    decreases a, 0
  {
    var opts := OptionsOf(a);
    if HasGroup(a) {
      var t1 := AddGroup(a, path, parent, index, t);
      if opts != [] {
        OptionsFull(t, opts[0], opts, |t.groups|);
      }
      GroupFits(a, path, parent, index, t);
      ChildrenFit(a.children, path, Some(|t.groups|), 0, t1);
      FullChildren(a.children, path, Some(|t.groups|), 0, t1);
    } else {
      FullChildren(a.children, path, None, 0, t);
    }
  }

  lemma {:induction false} FullChildren(cs: seq<Child>, path: Path, parent: Option<nat>, index: nat, t: Tables)
    ensures |ConvertChildren(cs, path, parent, index, t).shorts| == |t.shorts| + ChildrenSize(cs).shortLen <==> ChildrenFull(cs)
    decreases cs, 0
  {
    if cs != [] {
      var t1 := ConvertChild(cs[0], path, parent, index, t);
      FullChild(cs[0], path, parent, index, t);
      ChildFits(cs[0], path, parent, index, t);
      FullChildren(cs[1..], path, parent, index + 1, t1);
      ChildrenFit(cs[1..], path, parent, index + 1, t1);
    }
  }

  lemma {:induction false} FullChild(c: Child, path: Path, parent: Option<nat>, index: nat, t: Tables)
    ensures |ConvertChild(c, path, parent, index, t).shorts| == |t.shorts| + ChildSize(c).shortLen <==> ChildFull(c)
    decreases c, 0
  {
    ConvertFull(c.argp, path + [index], parent, index, t);
  }

  /**
   The string with its prefix and terminator fits what is allocated if and only if arguments
   are allowed, or some option writes fewer than three characters: with ARGP_NO_ARGS the
   prefix is written but not counted.
   */
  lemma ShortStringFits(a: Argp, flags: Flags)
    ensures |ParserConvert(a, flags).shorts| + 1 <= ShortSpace(a, flags) <==> !flags.noArgs || !TreeFull(a)
  {
    var t := Tables(Prefix(flags), [], [], 0);
    ConvertFits(a, [], None, 0, t);
    ConvertFull(a, [], None, 0, t);
  }

  /** A parser without options under ARGP_NO_ARGS: one byte is allocated, a prefix and a terminator are written. */
  lemma NoArgsOverflows(flags: Flags)
    requires flags.noArgs
    ensures var a := Argp(Some([]), true, []); |ParserConvert(a, flags).shorts| + 1 == 2 && ShortSpace(a, flags) == 1
  {
    var a := Argp(Some([]), true, []);
    var t := Tables(Prefix(flags), [], [], 0);
    assert OptionsOf(a) == [] && a.children == [];
    assert OwnSize(a).shortLen == 0 && ChildrenSize([]).shortLen == 0;
    hide OwnSize, ChildrenSize, SizeOf;
    assert AddGroup(a, [], None, 0, t).shorts == t.shorts;
    assert ConvertChildren([], [], Some(0), 0, AddGroup(a, [], None, 0, t)) == AddGroup(a, [], None, 0, t);
  }

  // ---- which group a short option goes to ----

  /** The string with the parser each character comes from. */
  function OwnChars(path: Path, base: Opt, opts: seq<Opt>): seq<(Path, int)>
    decreases |opts|
  {
    if opts == [] then []
    else
      var r := Real(base, opts[0]);
      Tagged(path, ShortChars(r, opts[0])) + OwnChars(path, r, opts[1..])
  }

  function Tagged(path: Path, s: seq<int>): seq<(Path, int)> {
    seq(|s|, i requires 0 <= i < |s| => (path, s[i]))
  }

  function ArgpChars(a: Argp, path: Path): seq<(Path, int)> {
    if OptionsOf(a) == [] then [] else OwnChars(path, OptionsOf(a)[0], OptionsOf(a))
  }

  function TreeChars(a: Argp, path: Path): seq<(Path, int)>
    decreases a, 0
  {
    ArgpChars(a, path) + ChildrenChars(a.children, path, 0)
  }

  function ChildrenChars(cs: seq<Child>, path: Path, i: nat): seq<(Path, int)>
    decreases cs, 0
  {
    if cs == [] then [] else ChildChars(cs[0], path, i) + ChildrenChars(cs[1..], path, i + 1)
  }

  function ChildChars(c: Child, path: Path, i: nat): seq<(Path, int)>
    decreases c, 0
  {
    TreeChars(c.argp, path + [i])
  }

  /** The first group that ends after a position. */
  function GroupAt(groups: seq<Group>, pos: nat): (g: Option<nat>)
    ensures g.Some? ==> g.value < |groups|
  {
    if groups == [] then None
    else if groups[0].shortEnd > pos then Some(0)
    else match GroupAt(groups[1..], pos) case None => None case Some(g) => Some(g + 1)
  }

  /** `strchr`. */
  function FirstIndex(s: seq<int>, c: int): (i: Option<nat>)
    ensures i.Some? ==> i.value < |s| && s[i.value] == c
  {
    if s == [] then None
    else if s[0] == c then Some(0)
    else match FirstIndex(s[1..], c) case None => None case Some(i) => Some(i + 1)
  }

  /** A result of a search that started `k` positions later. */
  function Later(i: Option<nat>, k: nat): Option<nat> {
    if i.Some? then Some(i.value + k) else None
  }

  /** The same searches by position, as a loop makes them. */
  function FirstFrom(s: seq<int>, c: int, i: nat): Option<nat>
    decreases |s| - i
  {
    if i >= |s| then None else if s[i] == c then Some(i) else FirstFrom(s, c, i + 1)
  }

  function GroupFrom(groups: seq<Group>, pos: nat, i: nat): Option<nat>
    decreases |groups| - i
  {
    if i >= |groups| then None else if groups[i].shortEnd > pos then Some(i) else GroupFrom(groups, pos, i + 1)
  }

  lemma {:induction false} FirstFromIs(s: seq<int>, c: int, i: nat)
    requires i <= |s|
    ensures FirstFrom(s, c, i) == Later(FirstIndex(s[i..], c), i)
    decreases |s| - i
  {
    if i < |s| {
      assert s[i..][1..] == s[i + 1..];
      FirstFromIs(s, c, i + 1);
    }
  }

  lemma {:induction false} GroupFromIs(groups: seq<Group>, pos: nat, i: nat)
    requires i <= |groups|
    ensures GroupFrom(groups, pos, i) == Later(GroupAt(groups[i..], pos), i)
    decreases |groups| - i
  {
    if i < |groups| {
      assert groups[i..][1..] == groups[i + 1..];
      GroupFromIs(groups, pos, i + 1);
    }
  }

  lemma SearchesFrom(t: Tables, c: int, pos: nat)
    ensures FirstFrom(t.shorts, c, 0) == FirstIndex(t.shorts, c) && GroupFrom(t.groups, pos, 0) == GroupAt(t.groups, pos)
  {
    FirstFromIs(t.shorts, c, 0);
    GroupFromIs(t.groups, pos, 0);
    assert t.shorts[0..] == t.shorts && t.groups[0..] == t.groups;
  }

  lemma {:induction false} GroupAtPush(groups: seq<Group>, g: Group, pos: nat)
    ensures GroupAt(groups + [g], pos)
         == if GroupAt(groups, pos).Some? then GroupAt(groups, pos) else if g.shortEnd > pos then Some(|groups|) else None
    decreases |groups|
  {
    if groups == [] {
      assert groups + [g] == [g];
    } else {
      GroupAtPush(groups[1..], g, pos);
      assert (groups + [g])[1..] == groups[1..] + [g];
    }
  }

  lemma {:induction false} NoGroupAt(groups: seq<Group>, pos: nat)
    requires forall i :: 0 <= i < |groups| ==> groups[i].shortEnd <= pos
    ensures GroupAt(groups, pos).None?
    decreases |groups|
  {
    if groups != [] {
      NoGroupAt(groups[1..], pos);
    }
  }

  /** The character at a position past the prefix is the tagged one, and its parser's group is found for it. */
  ghost predicate OwnedAt(t: Tables, base: nat, tags: seq<(Path, int)>, p: nat)
    requires base + |tags| == |t.shorts| && p < |tags|
  {
    && t.shorts[base + p] == tags[p].1
    && GroupAt(t.groups, base + p).Some?
    && t.groups[GroupAt(t.groups, base + p).value].owner == tags[p].0
  }

  ghost predicate Owned(t: Tables, base: nat, tags: seq<(Path, int)>) {
    && base + |tags| == |t.shorts|
    && (forall i :: 0 <= i < |t.groups| ==> t.groups[i].shortEnd <= |t.shorts|)
    && (forall p :: 0 <= p < |tags| ==> OwnedAt(t, base, tags, p))
  }

  lemma {:induction false} OptionsShorts(t: Tables, base: Opt, opts: seq<Opt>, g: nat, path: Path)
    ensures var t1 := AddOptions(t, base, opts, g); var tags := OwnChars(path, base, opts);
      && t1.groups == t.groups && |t1.shorts| == |t.shorts| + |tags| && t.shorts <= t1.shorts
      && forall p :: 0 <= p < |tags| ==> tags[p] == (path, t1.shorts[|t.shorts| + p])
    decreases |opts|
  {
    if opts != [] {
      var r := Real(base, opts[0]);
      OptionsShorts(t.(shorts := t.shorts + ShortChars(r, opts[0]), longs := LongsOf(t.longs, r, opts[0], g)), r, opts[1..], g, path);
    }
  }

  lemma GroupOwned(a: Argp, path: Path, parent: Option<nat>, index: nat, t: Tables, base: nat, tags: seq<(Path, int)>)
    requires Owned(t, base, tags)
    ensures Owned(AddGroup(a, path, parent, index, t), base, tags + ArgpChars(a, path))
  {
    var opts := OptionsOf(a);
    var t1 := if opts == [] then t else AddOptions(t, opts[0], opts, |t.groups|);
    var t2 := AddGroup(a, path, parent, index, t);
    var mine := ArgpChars(a, path);
    if opts != [] {
      OptionsShorts(t, opts[0], opts, |t.groups|, path);
    }
    hide AddOptions, OwnChars, ArgpChars;
    var all := tags + mine;
    assert t2.groups == t.groups + [t2.groups[|t.groups|]] && t2.groups[|t.groups|].shortEnd == |t1.shorts|;
    hide GroupAt;
    forall p | 0 <= p < |all| ensures OwnedAt(t2, base, all, p) {
      if p < |tags| {
        assert OwnedAt(t, base, tags, p);
        OwnedStays(t, t2, base, tags, mine, p);
      } else {
        OwnedNew(t, t2, base, tags, mine, path, p);
      }
    }
  }

  /** A character that came with a group belongs to it. */
  lemma OwnedNew(t: Tables, t1: Tables, base: nat, tags: seq<(Path, int)>, more: seq<(Path, int)>, path: Path, p: nat)
    requires base + |tags| == |t.shorts| && base + |tags + more| == |t1.shorts| && |tags| <= p < |tags + more|
    requires |t1.groups| == |t.groups| + 1 && t.groups <= t1.groups && t1.groups[|t.groups|].owner == path
    requires t1.groups[|t.groups|].shortEnd == |t1.shorts| && t1.shorts[base + p] == more[p - |tags|].1
    requires more[p - |tags|].0 == path && forall i :: 0 <= i < |t.groups| ==> t.groups[i].shortEnd <= |t.shorts|
    ensures OwnedAt(t1, base, tags + more, p)
  {
    assert t1.groups == t.groups + [t1.groups[|t.groups|]];
    GroupAtPush(t.groups, t1.groups[|t.groups|], base + p);
    NoGroupAt(t.groups, base + p);
    hide GroupAt;
    assert (tags + more)[p] == more[p - |tags|];
  }

  /** A character keeps its owner when a group is added behind. */
  lemma OwnedStays(t: Tables, t1: Tables, base: nat, tags: seq<(Path, int)>, more: seq<(Path, int)>, p: nat)
    requires base + |tags| == |t.shorts| && base + |tags + more| == |t1.shorts|
    requires p < |tags| && OwnedAt(t, base, tags, p)
    requires t.shorts <= t1.shorts && |t1.groups| == |t.groups| + 1 && t.groups <= t1.groups
    ensures OwnedAt(t1, base, tags + more, p)
  {
    assert t1.groups == t.groups + [t1.groups[|t.groups|]];
    GroupAtPush(t.groups, t1.groups[|t.groups|], base + p);
    assert t1.shorts[base + p] == t.shorts[base + p];
  }

  lemma {:induction false} ConvertOwned(a: Argp, path: Path, parent: Option<nat>, index: nat, t: Tables, base: nat, tags: seq<(Path, int)>)
    requires Owned(t, base, tags)
    ensures Owned(Convert(a, path, parent, index, t), base, tags + TreeChars(a, path))
    decreases a, 0
  {
    hide Owned;
    var mine := ArgpChars(a, path);
    assert tags + TreeChars(a, path) == (tags + mine) + ChildrenChars(a.children, path, 0);
    if HasGroup(a) {
      GroupOwned(a, path, parent, index, t, base, tags);
      ChildrenOwned(a.children, path, Some(|t.groups|), 0, AddGroup(a, path, parent, index, t), base, tags + mine);
    } else {
      assert tags + mine == tags;
      ChildrenOwned(a.children, path, None, 0, t, base, tags);
    }
  }

  lemma {:induction false} ChildrenOwned(cs: seq<Child>, path: Path, parent: Option<nat>, index: nat, t: Tables, base: nat, tags: seq<(Path, int)>)
    requires Owned(t, base, tags)
    ensures Owned(ConvertChildren(cs, path, parent, index, t), base, tags + ChildrenChars(cs, path, index))
    decreases cs, 0
  {
    hide Owned;
    if cs == [] {
      assert tags + [] == tags;
    } else {
      var mine := ChildChars(cs[0], path, index);
      ChildOwned(cs[0], path, parent, index, t, base, tags);
      ChildrenOwned(cs[1..], path, parent, index + 1, ConvertChild(cs[0], path, parent, index, t), base, tags + mine);
      assert tags + (mine + ChildrenChars(cs[1..], path, index + 1)) == (tags + mine) + ChildrenChars(cs[1..], path, index + 1);
    }
  }

  lemma {:induction false} ChildOwned(c: Child, path: Path, parent: Option<nat>, index: nat, t: Tables, base: nat, tags: seq<(Path, int)>)
    requires Owned(t, base, tags)
    ensures Owned(ConvertChild(c, path, parent, index, t), base, tags + ChildChars(c, path, index))
    decreases c, 0
  {
    ConvertOwned(c.argp, path + [index], parent, index, t, base, tags);
  }

  /** The group `parser_parse_opt` calls for a short option. */
  function Dispatch(t: Tables, c: int): Option<nat> {
    match FirstIndex(t.shorts, c) case None => None case Some(i) => GroupAt(t.groups, i)
  }

  lemma {:induction false} FirstTagged(s: seq<int>, base: nat, tags: seq<(Path, int)>, c: int)
    requires base + |tags| == |s| && c !in s[..base]
    requires forall p :: 0 <= p < |tags| ==> s[base + p] == tags[p].1
    ensures FirstIndex(s, c).Some? <==> FirstOwner(tags, c).Some?
    ensures FirstIndex(s, c).Some? ==>
      base <= FirstIndex(s, c).value && FirstOwner(tags, c) == Some(tags[FirstIndex(s, c).value - base].0)
    decreases |s|
  {
    if base > 0 {
      assert s[..base][0] == s[0];
      assert forall x :: x in s[1..][..base - 1] ==> x in s[..base];
      FirstTagged(s[1..], base - 1, tags, c);
    } else if s != [] && s[0] != c {
      FirstTagged(s[1..], 0, tags[1..], c);
    }
  }

  /** A short option is dispatched to the parser that its first character in the string comes from. */
  lemma DispatchOwner(a: Argp, flags: Flags, c: int)
    requires c != MINUS && c != PLUS
    ensures var t := ParserConvert(a, flags); var owner := FirstOwner(TreeChars(a, []), c);
      && (Dispatch(t, c).Some? <==> owner.Some?)
      && (Dispatch(t, c).Some? ==> owner == Some(t.groups[Dispatch(t, c).value].owner))
  {
    var base, t0 := |Prefix(flags)|, Tables(Prefix(flags), [], [], 0);
    assert [] + TreeChars(a, []) == TreeChars(a, []);
    ConvertOwned(a, [], None, 0, t0, base, []);
    ConvertFits(a, [], None, 0, t0);
    var t, tags := ParserConvert(a, flags), TreeChars(a, []);
    assert Owned(t, base, tags) && t.shorts[..base] == Prefix(flags);
    hide ParserConvert, Convert, TreeChars;
    OwnedDispatch(t, base, tags, c);
  }

  lemma OwnedDispatch(t: Tables, base: nat, tags: seq<(Path, int)>, c: int)
    requires Owned(t, base, tags) && c !in t.shorts[..base]
    ensures Dispatch(t, c).Some? <==> FirstOwner(tags, c).Some?
    ensures Dispatch(t, c).Some? ==> FirstOwner(tags, c) == Some(t.groups[Dispatch(t, c).value].owner)
  {
    forall p | 0 <= p < |tags| ensures t.shorts[base + p] == tags[p].1 { assert OwnedAt(t, base, tags, p); }
    FirstTagged(t.shorts, base, tags, c);
    if FirstIndex(t.shorts, c).Some? {
      assert OwnedAt(t, base, tags, FirstIndex(t.shorts, c).value - base);
    }
  }

  // ---- help and parser agree ----

  /**
   The short keys a parser's options declare, but for loose aliases: aliases of documentation
   options that are not such options themselves.
   */
  function Firm(path: Path, base: Opt, opts: seq<Opt>): seq<(Path, int)>
    decreases |opts|
  {
    if opts == [] then []
    else
      var r := Real(base, opts[0]);
      (if IsShort(opts[0]) && !r.docOnly then [(path, opts[0].key)] else []) + Firm(path, r, opts[1..])
  }

  function ArgpFirm(a: Argp, path: Path): seq<(Path, int)> {
    if OptionsOf(a) == [] then [] else Firm(path, OptionsOf(a)[0], OptionsOf(a))
  }

  function TreeFirm(a: Argp, path: Path): seq<(Path, int)>
    decreases a, 0
  {
    ArgpFirm(a, path) + ChildrenFirm(a.children, path, 0)
  }

  function ChildrenFirm(cs: seq<Child>, path: Path, i: nat): seq<(Path, int)>
    decreases cs, 0
  {
    if cs == [] then [] else ChildFirm(cs[0], path, i) + ChildrenFirm(cs[1..], path, i + 1)
  }

  function ChildFirm(c: Child, path: Path, i: nat): seq<(Path, int)>
    decreases c, 0
  {
    TreeFirm(c.argp, path + [i])
  }

  lemma TaggedOwner(path: Path, s: seq<int>, c: int)
    requires |s| <= 3
    ensures FirstOwner(Tagged(path, s), c) == if c in s then Some(path) else None
  {
    if s != [] {
      var tags := Tagged(path, s);
      assert tags[1..] == Tagged(path, s[1..]);
      TaggedOwner(path, s[1..], c);
      assert s == [s[0]] + s[1..];
    }
  }

  lemma {:induction false} OwnCharsOwner(path: Path, base: Opt, opts: seq<Opt>, c: int)
    requires c != COLON
    ensures FirstOwner(OwnChars(path, base, opts), c) == FirstOwner(Firm(path, base, opts), c)
    decreases |opts|
  {
    if opts != [] {
      var r := Real(base, opts[0]);
      var s := ShortChars(r, opts[0]);
      OwnCharsOwner(path, r, opts[1..], c);
      TaggedOwner(path, s, c);
      FirstOwnerAppend(Tagged(path, s), OwnChars(path, r, opts[1..]), c);
      var d := if IsShort(opts[0]) && !r.docOnly then [(path, opts[0].key)] else [];
      FirstOwnerAppend(d, Firm(path, r, opts[1..]), c);
      assert [(path, opts[0].key)][1..] == [];
    }
  }

  lemma {:induction false} TreeOwner(a: Argp, path: Path, c: int)
    requires c != COLON
    ensures FirstOwner(TreeChars(a, path), c) == FirstOwner(TreeFirm(a, path), c)
    decreases a, 0
  {
    if OptionsOf(a) != [] {
      OwnCharsOwner(path, OptionsOf(a)[0], OptionsOf(a), c);
    }
    ChildrenOwner(a.children, path, 0, c);
    FirstOwnerAppend(ArgpChars(a, path), ChildrenChars(a.children, path, 0), c);
    FirstOwnerAppend(ArgpFirm(a, path), ChildrenFirm(a.children, path, 0), c);
  }

  lemma {:induction false} ChildrenOwner(cs: seq<Child>, path: Path, i: nat, c: int)
    requires c != COLON
    ensures FirstOwner(ChildrenChars(cs, path, i), c) == FirstOwner(ChildrenFirm(cs, path, i), c)
    decreases cs, 0
  {
    if cs != [] {
      ChildOwner(cs[0], path, i, c);
      ChildrenOwner(cs[1..], path, i + 1, c);
      FirstOwnerAppend(ChildChars(cs[0], path, i), ChildrenChars(cs[1..], path, i + 1), c);
      FirstOwnerAppend(ChildFirm(cs[0], path, i), ChildrenFirm(cs[1..], path, i + 1), c);
    }
  }

  lemma {:induction false} ChildOwner(child: Child, path: Path, i: nat, c: int)
    requires c != COLON
    ensures FirstOwner(ChildChars(child, path, i), c) == FirstOwner(ChildFirm(child, path, i), c)
    decreases child, 0
  {
    TreeOwner(child.argp, path + [i], c);
  }

  /**
   Help and parser agree on a key: an entry reaches it exactly when there is a group for it,
   and then the entry's parser is the group's.
   */
  predicate SameOwner(h: Hol, t: Tables, c: int)
    requires forall i :: 0 <= i < |h.entries| ==> h.entries[i].so <= |h.shorts|
  {
    && (Dispatch(t, c).Some? <==> exists i :: 0 <= i < |h.entries| && c in Reached(h, i))
    && (forall i :: 0 <= i < |h.entries| && c in Reached(h, i) && Dispatch(t, c).Some? ==>
          h.entries[i].owner == t.groups[Dispatch(t, c).value].owner)
  }

  /**
   For every tree and every key but the three characters with a meaning of their own in the
   string: help and parser agree on who owns it if and only if the parser that declares it
   first is also the first to declare it other than by a loose alias.
   */
  lemma HelpAndParserAgreeExactly(a: Argp, flags: Flags, cluster: Option<ArgpOrder.Cluster>, c: int)
    requires c != COLON && c != MINUS && c != PLUS
    ensures var h := TreeHol(a, [], cluster);
      && (forall i :: 0 <= i < |h.entries| ==> h.entries[i].so <= |h.shorts|)
      && (SameOwner(h, ParserConvert(a, flags), c) <==> FirstOwner(TreeDeclares(a, []), c) == FirstOwner(TreeFirm(a, []), c))
  {
    OneEntryReaches(a, [], cluster, c);
    DispatchOwner(a, flags, c);
    TreeOwner(a, [], c);
    hide TreeHol, ParserConvert, TreeChars, TreeDeclares, TreeFirm, Reached, Dispatch, HolOk;
  }

  // ---- trees without loose aliases ----

  /** Aliases of documentation options are documentation options too. */
  predicate DocAliases(base: Opt, opts: seq<Opt>)
    decreases |opts|
  {
    opts != [] ==>
      (Real(base, opts[0]).docOnly ==> opts[0].docOnly) && DocAliases(Real(base, opts[0]), opts[1..])
  }

  predicate TreeDocAliases(a: Argp)
    decreases a, 0
  {
    (OptionsOf(a) == [] || DocAliases(OptionsOf(a)[0], OptionsOf(a))) && ChildrenDocAliases(a.children)
  }

  predicate ChildrenDocAliases(cs: seq<Child>)
    decreases cs, 0
  {
    cs == [] || (ChildDocAliases(cs[0]) && ChildrenDocAliases(cs[1..]))
  }

  predicate ChildDocAliases(c: Child)
    decreases c, 0
  {
    TreeDocAliases(c.argp)
  }

  lemma {:induction false} AllFirm(path: Path, base: Opt, opts: seq<Opt>)
    requires DocAliases(base, opts)
    ensures Firm(path, base, opts) == Declares(path, opts)
    decreases |opts|
  {
    if opts != [] {
      AllFirm(path, Real(base, opts[0]), opts[1..]);
    }
  }

  lemma {:induction false} TreeAllFirm(a: Argp, path: Path)
    requires TreeDocAliases(a)
    ensures TreeFirm(a, path) == TreeDeclares(a, path)
    decreases a, 0
  {
    if OptionsOf(a) != [] {
      AllFirm(path, OptionsOf(a)[0], OptionsOf(a));
    }
    ChildrenAllFirm(a.children, path, 0);
  }

  lemma {:induction false} ChildrenAllFirm(cs: seq<Child>, path: Path, i: nat)
    requires ChildrenDocAliases(cs)
    ensures ChildrenFirm(cs, path, i) == ChildrenDeclare(cs, path, i)
    decreases cs, 0
  {
    if cs != [] {
      ChildAllFirm(cs[0], path, i);
      ChildrenAllFirm(cs[1..], path, i + 1);
    }
  }

  lemma {:induction false} ChildAllFirm(child: Child, path: Path, i: nat)
    requires ChildDocAliases(child)
    ensures ChildFirm(child, path, i) == ChildDeclares(child, path, i)
    decreases child, 0
  {
    TreeAllFirm(child.argp, path + [i]);
  }

  /** Trees without loose aliases: help and parser agree on every key. */
  lemma HelpAndParserAgree(a: Argp, flags: Flags, cluster: Option<ArgpOrder.Cluster>, c: int)
    requires TreeDocAliases(a) && c != COLON && c != MINUS && c != PLUS
    ensures var h := TreeHol(a, [], cluster);
      && (forall i :: 0 <= i < |h.entries| ==> h.entries[i].so <= |h.shorts|)
      && SameOwner(h, ParserConvert(a, flags), c)
  {
    HelpAndParserAgreeExactly(a, flags, cluster, c);
    TreeAllFirm(a, []);
    hide TreeHol, ParserConvert, TreeFirm, TreeDeclares, SameOwner;
  }

  const SOME_DOC := Opt(None, 0, false, false, false, false, true, true, 0)
  const LOOSE_ALIAS := Opt(None, 97, false, false, false, true, false, false, 0)

  /** A loose alias: help lists a key the parser does not know. */
  lemma LooseAliasDisagrees(flags: Flags, cluster: Option<ArgpOrder.Cluster>)
    ensures var a := Argp(Some([SOME_DOC, LOOSE_ALIAS]), true, []); var h := TreeHol(a, [], cluster);
      && (forall i :: 0 <= i < |h.entries| ==> h.entries[i].so <= |h.shorts|)
      && !SameOwner(h, ParserConvert(a, flags), 97) && Dispatch(ParserConvert(a, flags), 97).None?
  {
    var opts := [SOME_DOC, LOOSE_ALIAS];
    var a := Argp(Some(opts), true, []);
    assert opts[1..] == [LOOSE_ALIAS] && [LOOSE_ALIAS][1..] == [];
    assert Firm([], SOME_DOC, opts) == [] + Firm([], SOME_DOC, [LOOSE_ALIAS]);
    assert TreeFirm(a, []) == [];
    assert Declares([], [LOOSE_ALIAS]) == [([], 97)] + Declares([], []);
    assert FirstOwner(TreeDeclares(a, []), 97) == Some([]);
    HelpAndParserAgreeExactly(a, flags, cluster, 97);
    DispatchOwner(a, flags, 97);
    TreeOwner(a, [], 97);
    hide TreeHol, ParserConvert, TreeChars, TreeDeclares, TreeFirm, SameOwner, Dispatch;
  }

  // ---- which group a long option goes to ----

  /** An option that is no documentation, with its parser and the real option behind it. */
  datatype Decl = Decl(owner: Path, base: Opt, opt: Opt)

  /** The real option behind the `i`-th: itself, or the nearest before it that is not an alias. */
  function BaseAt(opts: seq<Opt>, i: nat): Opt
    requires i < |opts|
  {
    if i == 0 || !opts[i].alias then opts[i] else BaseAt(opts, i - 1)
  }

  /** The options a tree declares, in preorder, but for documentation. */
  function OwnOptions(path: Path, opts: seq<Opt>, i: nat): seq<Decl>
    requires i <= |opts|
    decreases |opts| - i
  {
    if i == |opts| then [] else OwnOption(path, BaseAt(opts, i), opts[i]) + OwnOptions(path, opts, i + 1)
  }

  function OwnOption(path: Path, base: Opt, opt: Opt): seq<Decl> {
    if base.docOnly then [] else [Decl(path, base, opt)]
  }

  function TreeOptions(a: Argp, path: Path): seq<Decl>
    decreases a, 0
  {
    OwnOptions(path, OptionsOf(a), 0) + ChildrenOptions(a.children, path, 0)
  }

  function ChildrenOptions(cs: seq<Child>, path: Path, i: nat): seq<Decl>
    decreases cs, 0
  {
    if cs == [] then [] else ChildOptions(cs[0], path, i) + ChildrenOptions(cs[1..], path, i + 1)
  }

  function ChildOptions(c: Child, path: Path, i: nat): seq<Decl>
    decreases c, 0
  {
    TreeOptions(c.argp, path + [i])
  }

  /** The real option as the loop carries it along. */
  function BaseBefore(opts: seq<Opt>, i: nat): Opt
    requires i < |opts|
  {
    if i == 0 then opts[0] else BaseAt(opts, i - 1)
  }

  lemma RealIs(opts: seq<Opt>, i: nat)
    requires i < |opts|
    ensures Real(BaseBefore(opts, i), opts[i]) == BaseAt(opts, i)
    ensures i + 1 < |opts| ==> BaseBefore(opts, i + 1) == BaseAt(opts, i)
  {
  }

  /** The first declaration of a name. */
  function FirstDeclared(ds: seq<Decl>, name: Str): Option<Decl> {
    if ds == [] then None
    else if ds[0].opt.name == Some(name) then Some(ds[0])
    else FirstDeclared(ds[1..], name)
  }

  lemma {:induction false} FirstDeclaredAppend(a: seq<Decl>, b: seq<Decl>, name: Str)
    ensures FirstDeclared(a + b, name) == if FirstDeclared(a, name).Some? then FirstDeclared(a, name) else FirstDeclared(b, name)
    decreases |a|
  {
    if a == [] {
      assert a + b == b;
    } else {
      FirstDeclaredAppend(a[1..], b, name);
      assert (a + b)[1..] == a[1..] + b;
    }
  }

  function Owners(groups: seq<Group>): seq<Path> {
    seq(|groups|, i requires 0 <= i < |groups| => groups[i].owner)
  }

  /** Whether getopt is told of no, a required or an optional argument, by what the real option has. */
  predicate ArgumentOf(hasArg: HasArg, base: Opt) {
    && (hasArg == NoArgument <==> !base.hasArg)
    && (hasArg == RequiredArgument <==> base.hasArg && !base.argOptional)
    && (hasArg == OptionalArgument <==> base.hasArg && base.argOptional)
  }

  /** An option without a key of its own stands for that of the real option. */
  predicate StandsFor(key: int, d: Decl) {
    if d.opt.key == 0 then key == d.base.key else key == d.opt.key
  }

  /** A long option is packed with group `g`, of the parser that declares its name first, and the key it stands for there. */
  predicate OwnedBy(l: LongOpt, owners: seq<Path>, ds: seq<Decl>, g: nat, key: int) {
    var d := FirstDeclared(ds, l.name);
    g < |owners| && d.Some? && owners[g] == d.value.owner && StandsFor(key, d.value) && l.val == Pack(g, key)
    && ArgumentOf(l.hasArg, d.value.base)
  }

  ghost predicate LongOwned(l: LongOpt, owners: seq<Path>, ds: seq<Decl>) {
    exists g: nat, key :: OwnedBy(l, owners, ds, g, key)
  }

  ghost predicate LongsOwned(longs: seq<LongOpt>, owners: seq<Path>, ds: seq<Decl>) {
    && (forall i :: 0 <= i < |longs| ==> LongOwned(longs[i], owners, ds))
    && (forall i, j :: 0 <= i < j < |longs| ==> longs[i].name != longs[j].name)
    && (forall name :: FirstDeclared(ds, name).Some? <==> HasLong(longs, name))
  }

  lemma MoreOwners(longs: seq<LongOpt>, owners: seq<Path>, more: seq<Path>, ds: seq<Decl>)
    requires LongsOwned(longs, owners, ds) && owners <= more
    ensures LongsOwned(longs, more, ds)
  {
    forall i | 0 <= i < |longs| ensures LongOwned(longs[i], more, ds) {
      assert LongOwned(longs[i], owners, ds);
      var g: nat, key :| OwnedBy(longs[i], owners, ds, g, key);
      assert OwnedBy(longs[i], more, ds, g, key);
    }
  }

  /** One more declaration: a new name is added, a known one is not. */
  lemma LongStep(longs: seq<LongOpt>, owners: seq<Path>, ds: seq<Decl>, g: nat, base: Opt, opt: Opt)
    requires LongsOwned(longs, owners, ds) && g < |owners| && !base.docOnly && opt.name.Some?
    ensures LongsOwned(LongsOf(longs, base, opt, g), owners, ds + [Decl(owners[g], base, opt)])
  {
    var name, d := opt.name.value, Decl(owners[g], base, opt);
    var ds1, longs1 := ds + [d], LongsOf(longs, base, opt, g);
    forall n ensures FirstDeclared(ds1, n) == if FirstDeclared(ds, n).Some? then FirstDeclared(ds, n)
                                               else if n == name then Some(d) else None {
      FirstDeclaredAppend(ds, [d], n);
      assert [d][1..] == [];
    }
    hide FirstDeclared;
    forall i | 0 <= i < |longs1| ensures LongOwned(longs1[i], owners, ds1) {
      if i < |longs| {
        assert LongOwned(longs[i], owners, ds);
        var o: nat, key :| OwnedBy(longs[i], owners, ds, o, key);
        assert OwnedBy(longs1[i], owners, ds1, o, key);
      } else {
        assert FirstDeclared(ds, name).None?;
        assert OwnedBy(longs1[i], owners, ds1, g, LongKey(base, opt));
      }
    }
    forall n ensures FirstDeclared(ds1, n).Some? <==> HasLong(longs1, n) {
      assert FirstDeclared(ds, n).Some? <==> HasLong(longs, n);
      if HasLong(longs, n) {
        var i :| 0 <= i < |longs| && longs[i].name == n;
        assert longs1[i].name == n;
      } else if n == name {
        assert longs1[|longs|].name == n;
      }
    }
  }

  /** An option without a name declares none. */
  lemma NamelessStep(longs: seq<LongOpt>, owners: seq<Path>, ds: seq<Decl>, d: Decl)
    requires LongsOwned(longs, owners, ds) && d.opt.name.None?
    ensures LongsOwned(longs, owners, ds + [d])
  {
    forall n ensures FirstDeclared(ds + [d], n) == FirstDeclared(ds, n) {
      FirstDeclaredAppend(ds, [d], n);
      assert [d][1..] == [];
    }
    hide FirstDeclared;
    forall i | 0 <= i < |longs| ensures LongOwned(longs[i], owners, ds + [d]) {
      assert LongOwned(longs[i], owners, ds);
      var g: nat, key :| OwnedBy(longs[i], owners, ds, g, key);
      assert OwnedBy(longs[i], owners, ds + [d], g, key);
    }
  }

  lemma OptionLongs(longs: seq<LongOpt>, owners: seq<Path>, ds: seq<Decl>, g: nat, base: Opt, opt: Opt)
    requires LongsOwned(longs, owners, ds) && g < |owners|
    ensures LongsOwned(LongsOf(longs, base, opt, g), owners, ds + OwnOption(owners[g], base, opt))
  {
    hide LongsOwned;
    if base.docOnly {
      assert ds + OwnOption(owners[g], base, opt) == ds;
    } else if opt.name.None? {
      NamelessStep(longs, owners, ds, Decl(owners[g], base, opt));
    } else {
      LongStep(longs, owners, ds, g, base, opt);
    }
  }

  lemma AddOptionsStep(t: Tables, opts: seq<Opt>, i: nat, g: nat)
    requires i < |opts|
    ensures var r := BaseAt(opts, i);
      var t1 := t.(shorts := t.shorts + ShortChars(r, opts[i]), longs := LongsOf(t.longs, r, opts[i], g));
      AddOptions(t, BaseBefore(opts, i), opts[i..], g)
      == if i + 1 < |opts| then AddOptions(t1, BaseBefore(opts, i + 1), opts[i + 1..], g) else t1
  {
    RealIs(opts, i);
    hide LongsOf, ShortChars, BaseAt, BaseBefore, Real;
    assert opts[i..][1..] == opts[i + 1..];
  }

  lemma {:induction false} OptionsLongs(t: Tables, opts: seq<Opt>, i: nat, owners: seq<Path>, g: nat, ds: seq<Decl>)
    requires LongsOwned(t.longs, owners, ds) && g < |owners| && i < |opts|
    ensures LongsOwned(AddOptions(t, BaseBefore(opts, i), opts[i..], g).longs, owners, ds + OwnOptions(owners[g], opts, i))
    decreases |opts| - i
  {
    var r := BaseAt(opts, i);
    var t1 := t.(shorts := t.shorts + ShortChars(r, opts[i]), longs := LongsOf(t.longs, r, opts[i], g));
    var mine := OwnOption(owners[g], r, opts[i]);
    OptionLongs(t.longs, owners, ds, g, r, opts[i]);
    AddOptionsStep(t, opts, i, g);
    if i + 1 < |opts| {
      var rest := OwnOptions(owners[g], opts, i + 1);
      assert OwnOptions(owners[g], opts, i) == mine + rest;
      hide *;
      OptionsLongs(t1, opts, i + 1, owners, g, ds + mine);
      assert ds + (mine + rest) == (ds + mine) + rest;
    } else {
      assert OwnOptions(owners[g], opts, i) == mine + [] == mine;
    }
  }

  lemma {:induction false} AddOptionsGroups(t: Tables, base: Opt, opts: seq<Opt>, g: nat)
    ensures AddOptions(t, base, opts, g).groups == t.groups
    decreases |opts|
  {
    if opts != [] {
      var r := Real(base, opts[0]);
      AddOptionsGroups(t.(shorts := t.shorts + ShortChars(r, opts[0]), longs := LongsOf(t.longs, r, opts[0], g)), r, opts[1..], g);
    }
  }

  lemma GroupLongs(a: Argp, path: Path, parent: Option<nat>, index: nat, t: Tables, ds: seq<Decl>)
    requires LongsOwned(t.longs, Owners(t.groups), ds)
    ensures var t1 := AddGroup(a, path, parent, index, t); LongsOwned(t1.longs, Owners(t1.groups), ds + OwnOptions(path, OptionsOf(a), 0))
  {
    var opts, t1 := OptionsOf(a), AddGroup(a, path, parent, index, t);
    if opts != [] {
      AddOptionsGroups(t, opts[0], opts, |t.groups|);
    }
    var owners := Owners(t.groups) + [path];
    assert Owners(t1.groups) == owners;
    MoreOwners(t.longs, Owners(t.groups), owners, ds);
    if opts == [] {
      assert ds + OwnOptions(path, OptionsOf(a), 0) == ds;
    } else {
      assert opts[0..] == opts;
      OptionsLongs(t, opts, 0, owners, |t.groups|, ds);
    }
  }

  lemma {:induction false} ConvertLongs(a: Argp, path: Path, parent: Option<nat>, index: nat, t: Tables, ds: seq<Decl>)
    requires LongsOwned(t.longs, Owners(t.groups), ds)
    ensures var t1 := Convert(a, path, parent, index, t); LongsOwned(t1.longs, Owners(t1.groups), ds + TreeOptions(a, path))
    decreases a, 0
  {
    hide LongsOwned;
    var mine := OwnOptions(path, OptionsOf(a), 0);
    assert ds + TreeOptions(a, path) == (ds + mine) + ChildrenOptions(a.children, path, 0);
    if HasGroup(a) {
      GroupLongs(a, path, parent, index, t, ds);
      LongsOfChildren(a.children, path, Some(|t.groups|), 0, AddGroup(a, path, parent, index, t), ds + mine);
    } else {
      assert ds + mine == ds;
      LongsOfChildren(a.children, path, None, 0, t, ds);
    }
  }

  lemma {:induction false} LongsOfChildren(cs: seq<Child>, path: Path, parent: Option<nat>, index: nat, t: Tables, ds: seq<Decl>)
    requires LongsOwned(t.longs, Owners(t.groups), ds)
    ensures var t1 := ConvertChildren(cs, path, parent, index, t);
      LongsOwned(t1.longs, Owners(t1.groups), ds + ChildrenOptions(cs, path, index))
    decreases cs, 0
  {
    hide LongsOwned;
    if cs == [] {
      assert ds + [] == ds;
    } else {
      var mine := ChildOptions(cs[0], path, index);
      LongsOfChild(cs[0], path, parent, index, t, ds);
      LongsOfChildren(cs[1..], path, parent, index + 1, ConvertChild(cs[0], path, parent, index, t), ds + mine);
      assert ds + (mine + ChildrenOptions(cs[1..], path, index + 1)) == (ds + mine) + ChildrenOptions(cs[1..], path, index + 1);
    }
  }

  lemma {:induction false} LongsOfChild(c: Child, path: Path, parent: Option<nat>, index: nat, t: Tables, ds: seq<Decl>)
    requires LongsOwned(t.longs, Owners(t.groups), ds)
    ensures var t1 := ConvertChild(c, path, parent, index, t); LongsOwned(t1.longs, Owners(t1.groups), ds + ChildOptions(c, path, index))
    decreases c, 0
  {
    ConvertLongs(c.argp, path + [index], parent, index, t, ds);
  }

  /** What `parser_parse_opt` decodes from a long option's value: its group and key, as far as they fit. */
  predicate Decodes(l: LongOpt, owners: seq<Path>, ds: seq<Decl>, g: nat, key: int) {
    && OwnedBy(l, owners, ds, g, key)
    && (GroupKey(l.val) == g + 1 <==> g < 127)
    && (UserKey(l.val) == key <==> -0x80_0000 <= key < 0x80_0000)
  }

  lemma DecodeLong(l: LongOpt, owners: seq<Path>, ds: seq<Decl>, g: nat, key: int)
    requires OwnedBy(l, owners, ds, g, key)
    ensures Decodes(l, owners, ds, g, key)
  {
    hide Pack, GroupKey, UserKey, FirstDeclared;
    PackRoundTrip(g, key);
  }

  lemma ParserLongs(a: Argp, flags: Flags)
    ensures var t := ParserConvert(a, flags);
      LongsOwned(t.longs, Owners(t.groups), TreeOptions(a, [])) && |t.groups| <= SizeOf(a).numGroups
  {
    var t0 := Tables(Prefix(flags), [], [], 0);
    assert [] + TreeOptions(a, []) == TreeOptions(a, []);
    assert LongsOwned([], Owners([]), []);
    hide LongsOwned;
    ConvertLongs(a, [], None, 0, t0, []);
    ConvertFits(a, [], None, 0, t0);
  }

  /**
   Long options of any tree: each declared name has exactly one entry, of the parser that
   declares it first, with no, a required or an optional argument as the real option behind
   that declaration has. What is decoded from it is that parser's group if and only if it is
   one of the first 127, and the key the declaration stands for if and only if it fits in
   twenty-four bits.
   */
  lemma LongDispatch(a: Argp, flags: Flags, name: Str)
    ensures var t := ParserConvert(a, flags); var ds := TreeOptions(a, []);
      && (FirstDeclared(ds, name).Some? <==> HasLong(t.longs, name))
      && (forall i, j :: 0 <= i < j < |t.longs| ==> t.longs[i].name != t.longs[j].name)
      && (forall i :: 0 <= i < |t.longs| && t.longs[i].name == name ==>
            exists g: nat, key :: Decodes(t.longs[i], Owners(t.groups), ds, g, key))
  {
    ParserLongs(a, flags);
    hide ParserConvert, TreeOptions, FirstDeclared, OwnedBy, Decodes, SizeOf;
    var t, ds := ParserConvert(a, flags), TreeOptions(a, []);
    forall i | 0 <= i < |t.longs| && t.longs[i].name == name
      ensures exists g: nat, key :: Decodes(t.longs[i], Owners(t.groups), ds, g, key)
    {
      assert LongOwned(t.longs[i], Owners(t.groups), ds);
      var g: nat, key :| OwnedBy(t.longs[i], Owners(t.groups), ds, g, key);
      DecodeLong(t.longs[i], Owners(t.groups), ds, g, key);
    }
  }
}
