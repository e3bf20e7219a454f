/**
 The parser's tables as the code keeps them: buffers of sizes computed beforehand, filled
 through write positions by a recursion over the tree. Every method is proved to produce what
 `ArgpTables` specifies; that no write leaves its buffer is part of the proof.
 */
module ParserBuilder {
  import opened Options
  import opened ArgpTypes
  import opened ArgpHol
  import opened ArgpPack
  import opened ArgpTables

  /** `calc_sizes`: adds what a tree needs to sizes counted so far. */
  method CalcSizes(a: Argp, szs0: Sizes) returns (szs: Sizes)
    ensures szs == Plus(szs0, SizeOf(a))
    decreases a
  {
    hide OwnSize;
    szs := CountOwn(a, szs0);
    ghost var target := Plus(szs0, SizeOf(a));
    assert Plus(szs, ChildrenSize(a.children)) == target;
    hide SizeOf;
    var i := 0;
    assert a.children[0..] == a.children;
    while i < |a.children|
      invariant i <= |a.children|
      invariant Plus(szs, ChildrenSize(a.children[i..])) == target
    {
      ChildrenSizeStep(a.children, i);
      hide ChildrenSize;
      szs := CalcChild(a.children[i], szs);
      szs := szs.(numInputs := szs.numInputs + 1);
      i := i + 1;
    }
  }

  /** One parser's own group and options. */
  method CountOwn(a: Argp, szs0: Sizes) returns (szs: Sizes)
    ensures szs == Plus(szs0, OwnSize(a))
  {
    szs := szs0;
    if a.options.Some? || a.hasParser {
      szs := szs.(numGroups := szs.numGroups + 1);
      if a.options.Some? {
        var numOpts := 0;
        while numOpts < |a.options.value|
          invariant numOpts <= |a.options.value|
        {
          numOpts := numOpts + 1;
        }
        szs := szs.(shortLen := szs.shortLen + numOpts * 3, longLen := szs.longLen + numOpts);
      }
    }
  }

  lemma ChildrenSizeStep(cs: seq<Child>, i: nat)
    requires i < |cs|
    ensures ChildrenSize(cs[i..]) == Plus(Plus(ChildSize(cs[i]), Sizes(0, 0, 0, 1)), ChildrenSize(cs[i + 1..]))
  {
    assert cs[i..][1..] == cs[i + 1..];
  }

  method CalcChild(c: Child, szs0: Sizes) returns (szs: Sizes)
    ensures szs == Plus(szs0, ChildSize(c))
    decreases c
  {
    szs := CalcSizes(c.argp, szs0);
  }

  /** The parser under construction; each list ends with a terminator. */
  class Parser {
    const shortOpts: array<int>
    const longOpts: array<Option<LongOpt>>
    const groups: array<Group>
    const numInputs: nat
    var shortEnd: nat
    var longEnd: nat
    var egroup: nat
    var inputsEnd: nat
    ghost var longs: seq<LongOpt>

    ghost predicate Valid()
      reads this, longOpts, shortOpts
    {
      && shortEnd < shortOpts.Length && longEnd < longOpts.Length
      && egroup <= groups.Length && inputsEnd <= numInputs
      && shortOpts[shortEnd] == 0 && 0 !in shortOpts[..shortEnd]
      && |longs| == longEnd && longOpts[longEnd].None?
      && (forall i :: 0 <= i < longEnd ==> longOpts[i] == Some(longs[i]))
    }

    ghost function View(): Tables
      requires Valid()
      reads this, shortOpts, longOpts, groups
    {
      Tables(shortOpts[..shortEnd], longs, groups[..egroup], inputsEnd)
    }

    /** The buffers hold these tables and the terminators. */
    ghost predicate Fits(t: Tables) {
      && |t.shorts| < shortOpts.Length && |t.longs| < longOpts.Length
      && |t.groups| <= groups.Length && t.inputs <= numInputs
    }

    /** Empty tables over buffers of the given sizes. */
    constructor (shortSpace: nat, longSpace: nat, groupSpace: nat, inputSpace: nat)
      requires shortSpace > 0 && longSpace > 0
      ensures fresh(shortOpts) && fresh(longOpts) && fresh(groups)
      ensures shortOpts.Length == shortSpace && longOpts.Length == longSpace
      ensures groups.Length == groupSpace && numInputs == inputSpace
      ensures Valid() && View() == Tables([], [], [], 0)
    {
      shortOpts := new int[shortSpace];
      longOpts := new Option<LongOpt>[longSpace];
      groups := new Group[groupSpace];
      numInputs := inputSpace;
      shortEnd, longEnd, egroup, inputsEnd, longs := 0, 0, 0, 0, [];
      new;
      shortOpts[0] := 0;
      longOpts[0] := None;
    }

    /** `find_long_option`: where a name is, or -1; without a name, how many there are. */
    method FindLongOption(name: Option<Str>) returns (r: int)
      requires Valid()
      ensures name.None? ==> r == longEnd
      ensures name.Some? ==> (r < 0 <==> !HasLong(longs, name.value))
      ensures name.Some? && r >= 0 ==> r < longEnd && longs[r].name == name.value
    {
      var l := 0;
      while longOpts[l].Some?
        invariant l <= longEnd
        invariant name.Some? ==> forall i :: 0 <= i < l ==> longs[i].name != name.value
        decreases longEnd - l
      {
        if name.Some? && longOpts[l].value.name == name.value {
          return l;
        }
        l := l + 1;
      }
      r := if name.None? then l else -1;
    }

    /** A short option's characters, and the terminator behind them. */
    method PutShort(base: Opt, opt: Opt)
      requires Valid() && !base.docOnly && IsShort(opt)
      requires shortEnd + |ShortChars(base, opt)| < shortOpts.Length
      modifies this`shortEnd, shortOpts
      ensures Valid()
      ensures View() == old(View()).(shorts := old(View()).shorts + ShortChars(base, opt))
    {
      ghost var before := shortOpts[..shortEnd];
      shortOpts[shortEnd] := opt.key;
      shortEnd := shortEnd + 1;
      assert shortOpts[..shortEnd] == before + [opt.key];
      if base.hasArg {
        shortOpts[shortEnd] := COLON;
        shortEnd := shortEnd + 1;
        assert shortOpts[..shortEnd] == before + [opt.key, COLON];
        if base.argOptional {
          shortOpts[shortEnd] := COLON;
          shortEnd := shortEnd + 1;
          assert shortOpts[..shortEnd] == before + [opt.key, COLON, COLON];
        }
      }
      shortOpts[shortEnd] := 0;
      assert shortOpts[..shortEnd] == before + ShortChars(base, opt);
    }

    /** A long option, unless its name is taken, and the terminator behind it. */
    method PutLong(base: Opt, opt: Opt, g: nat)
      requires Valid() && !base.docOnly
      requires |LongsOf(longs, base, opt, g)| < longOpts.Length
      modifies this`longEnd, this`longs, longOpts
      ensures Valid()
      ensures View() == old(View()).(longs := LongsOf(old(longs), base, opt, g))
    {
      if opt.name.Some? {
        var at := FindLongOption(opt.name);
        if at < 0 {
          var entry := LongOpt(opt.name.value, ArgOf(base), Pack(g, LongKey(base, opt)));
          longOpts[longEnd] := Some(entry);
          longEnd, longs := longEnd + 1, longs + [entry];
          longOpts[longEnd] := None;
        }
      }
    }

    /** One option of group `g`. */
    method PutOption(base: Opt, opt: Opt, g: nat)
      requires Valid()
      requires shortEnd + |ShortChars(base, opt)| < shortOpts.Length
      requires |LongsOf(longs, base, opt, g)| < longOpts.Length
      modifies this`shortEnd, this`longEnd, this`longs, shortOpts, longOpts
      ensures Valid()
      ensures View() == old(View()).(shorts := old(View()).shorts + ShortChars(base, opt), longs := LongsOf(old(longs), base, opt, g))
    {
      ghost var before := View();
      assert before.shorts + [] == before.shorts;
      if !base.docOnly {
        if IsShort(opt) {
          PutShort(base, opt);
        }
        PutLong(base, opt, g);
      }
    }

    /** The loop over a parser's own options. */
    method PutOptions(opts: seq<Opt>, g: nat)
      requires Valid() && opts != [] && Fits(AddOptions(View(), opts[0], opts, g))
      modifies this`shortEnd, this`longEnd, this`longs, shortOpts, longOpts
      ensures Valid() && View() == AddOptions(old(View()), opts[0], opts, g)
    {
      ghost var target := AddOptions(View(), opts[0], opts, g);
      var base, o := opts[0], 0;
      assert opts[0..] == opts;
      while o < |opts|
        invariant o <= |opts| && Valid()
        invariant AddOptions(View(), base, opts[o..], g) == target
      {
        assert opts[o..][1..] == opts[o + 1..];
        base := Real(base, opts[o]);
        NextFits(View(), base, opts[o], opts[o + 1..], g);
        PutOption(base, opts[o], g);
        o := o + 1;
      }
    }

    /** `convert_options`: a tree's options and groups, behind what is there. */
    method ConvertOptions(a: Argp, path: Path, parent: Option<nat>, index: nat)
      requires Valid() && Fits(Convert(a, path, parent, index, View()))
      modifies this, shortOpts, longOpts, groups
      ensures Valid() && View() == Convert(a, path, parent, index, old(View()))
      decreases a
    {
      hide LongsOf, ShortChars, AddOptions;
      var up := None;
      if a.options.Some? || a.hasParser {
        up := Some(egroup);
        PutGroup(a, path, parent, index);
      }
      ghost var target := ConvertChildren(a.children, path, up, 0, View());
      var i := 0;
      assert a.children[0..] == a.children;
      while i < |a.children|
        invariant i <= |a.children| && Valid()
        invariant ConvertChildren(a.children[i..], path, up, i, View()) == target && Fits(target)
      {
        assert a.children[i..][1..] == a.children[i + 1..];
        ChildrenFit(a.children[i + 1..], path, up, i + 1, ConvertChild(a.children[i], path, up, i, View()));
        ConvertOneChild(a.children[i], path, up, i);
        i := i + 1;
      }
    }

    method ConvertOneChild(c: Child, path: Path, parent: Option<nat>, index: nat)
      requires Valid() && Fits(ConvertChild(c, path, parent, index, View()))
      modifies this, shortOpts, longOpts, groups
      ensures Valid() && View() == ConvertChild(c, path, parent, index, old(View()))
      decreases c
    {
      ConvertOptions(c.argp, path + [index], parent, index);
    }

    /** A parser's own options and its group. */
    method PutGroup(a: Argp, path: Path, parent: Option<nat>, index: nat)
      requires Valid() && HasGroup(a) && Fits(Convert(a, path, parent, index, View()))
      modifies this, shortOpts, longOpts, groups
      ensures Valid() && View() == AddGroup(a, path, parent, index, old(View()))
    {
      GroupRoom(a, path, parent, index, View());
      hide Convert, LongsOf, ShortChars;
      ghost var t := View();
      var opts := OptionsOf(a);
      if opts != [] {
        OptionsFit(t, opts[0], opts, egroup);
        hide AddOptions;
        PutOptions(opts, egroup);
      }
      hide AddOptions;
      groups[egroup] := Group(path, a.hasParser, shortEnd, parent, index, inputsEnd);
      egroup := egroup + 1;
      inputsEnd := inputsEnd + |a.children|;
    }

    /** `strchr` on the short-option string: the first position of a character. */
    method StrChr(c: int) returns (at: Option<nat>)
      requires Valid() && c != 0
      ensures at == FirstIndex(View().shorts, c)
    {
      ghost var s := View().shorts;
      var i := 0;
      SearchesFrom(View(), c, 0);
      while shortOpts[i] != 0
        invariant i <= shortEnd && FirstFrom(s, c, i) == FirstFrom(s, c, 0)
        decreases shortEnd - i
      {
        assert s[i] == shortOpts[i];
        if shortOpts[i] == c {
          return Some(i);
        }
        i := i + 1;
      }
      at := None;
    }

    /** The search of `parser_parse_opt` for a short option's group. */
    method ShortGroup(c: int) returns (g: Option<nat>)
      requires Valid() && c != 0
      ensures g == Dispatch(View(), c)
    {
      var at := StrChr(c);
      if at.None? {
        return None;
      }
      var i := 0;
      ghost var gs := groups[..egroup];
      SearchesFrom(View(), c, at.value);
      while i < egroup
        invariant i <= egroup && GroupFrom(gs, at.value, i) == GroupFrom(gs, at.value, 0)
      {
        assert gs[i] == groups[i];
        if groups[i].shortEnd > at.value {
          return Some(i);
        }
        i := i + 1;
      }
      g := None;
    }

    /** The character in front that tells getopt about non-option arguments. */
    method PutPrefix(flags: Flags)
      requires Valid() && View() == Tables([], [], [], 0)
      requires |Prefix(flags)| < shortOpts.Length
      modifies this`shortEnd, shortOpts
      ensures Valid() && View() == Tables(Prefix(flags), [], [], 0)
    {
      if flags.inOrder {
        shortOpts[shortEnd] := MINUS;
        shortEnd := shortEnd + 1;
      } else if flags.noArgs {
        shortOpts[shortEnd] := PLUS;
        shortEnd := shortEnd + 1;
      }
      shortOpts[shortEnd] := 0;
      assert shortOpts[..shortEnd] == Prefix(flags);
    }

    /** `parser_convert`, on empty tables. */
    method ConvertParser(a: Argp, flags: Flags)
      requires Valid() && View() == Tables([], [], [], 0)
      requires Fits(ParserConvert(a, flags))
      modifies this, shortOpts, longOpts, groups
      ensures Valid() && View() == ParserConvert(a, flags)
    {
      hide Convert, SizeOf, Prefix, Valid;
      ConvertFits(a, [], None, 0, Tables(Prefix(flags), [], [], 0));
      PutPrefix(flags);
      ConvertOptions(a, [], None, 0);
    }
  }

  /** Room for the final tables is room for one more option. */
  lemma NextFits(t: Tables, r: Opt, opt: Opt, rest: seq<Opt>, g: nat)
    ensures var t1 := t.(shorts := t.shorts + ShortChars(r, opt), longs := LongsOf(t.longs, r, opt, g));
      |t1.shorts| <= |AddOptions(t1, r, rest, g).shorts| && |t1.longs| <= |AddOptions(t1, r, rest, g).longs|
  {
    OptionsFit(t.(shorts := t.shorts + ShortChars(r, opt), longs := LongsOf(t.longs, r, opt, g)), r, rest, g);
  }

  /** Room for a whole tree is room for its root's group. */
  lemma GroupRoom(a: Argp, path: Path, parent: Option<nat>, index: nat, t: Tables)
    requires HasGroup(a)
    ensures var t1, t2 := AddGroup(a, path, parent, index, t), Convert(a, path, parent, index, t);
      && |t1.shorts| <= |t2.shorts| && |t1.longs| <= |t2.longs| && |t1.groups| <= |t2.groups| && t1.inputs <= t2.inputs
  {
    ChildrenFit(a.children, path, Some(|t.groups|), 0, AddGroup(a, path, parent, index, t));
  }

  /**
   Allocation and conversion as `parser_init` does them. The one case left out is the one in
   which the string does not fit what is allocated (see `ShortStringFits`).
   */
  method BuildParser(a: Argp, flags: Flags) returns (p: Parser)
    requires !flags.noArgs || !TreeFull(a)
    ensures fresh(p) && fresh(p.shortOpts) && fresh(p.longOpts) && fresh(p.groups)
    ensures p.Valid() && p.View() == ParserConvert(a, flags)
    ensures p.shortOpts.Length == ShortSpace(a, flags) && p.longOpts.Length == SizeOf(a).longLen + 1
    ensures p.groups.Length == SizeOf(a).numGroups + 1 && p.numInputs == SizeOf(a).numInputs
  {
    ShortStringFits(a, flags);
    ConvertFits(a, [], None, 0, Tables(Prefix(flags), [], [], 0));
    var szs := CalcSizes(a, Sizes(if flags.noArgs then 0 else 1, 0, 0, 0));
    p := new Parser(szs.shortLen + 1, szs.longLen + 1, szs.numGroups + 1, szs.numInputs);
    hide Convert, TreeFull;
    p.ConvertParser(a, flags);
  }
}
