/**
 The short-option string as getopt reads it: behind the first occurrence of a character, no
 colon, one or two tell whether the option takes no, a required or an optional argument.
 */
module ArgpShorts {
  import opened Options
  import opened ArgpTypes
  import opened ArgpHol
  import opened ArgpTables

  /** What getopt takes the option at a position of the string for. */
  function ArgumentAt(s: seq<int>, i: nat): HasArg {
    if i + 1 >= |s| || s[i + 1] != COLON then NoArgument
    else if i + 2 >= |s| || s[i + 2] != COLON then RequiredArgument
    else OptionalArgument
  }

  /** The first declaration of a short option. */
  predicate FirstShortOf(ds: seq<Decl>, c: int, p: nat) {
    && p < |ds| && IsShort(ds[p].opt) && ds[p].opt.key == c
    && forall q :: 0 <= q < p ==> !(IsShort(ds[q].opt) && ds[q].opt.key == c)
  }

  /** The next short option declared is a colon. */
  predicate ColonNext(ds: seq<Decl>, p: nat) {
    exists q :: p < q < |ds| && IsShort(ds[q].opt) && ds[q].opt.key == COLON && forall r :: p < r < q ==> !IsShort(ds[r].opt)
  }

  // ---- how declarations are spelled ----

  function Spell(d: Decl): seq<int> {
    if !IsShort(d.opt) then []
    else if !d.base.hasArg then [d.opt.key]
    else if d.base.argOptional then [d.opt.key, COLON, COLON]
    else [d.opt.key, COLON]
  }

  function Spelled(ds: seq<Decl>): seq<int> {
    if ds == [] then [] else Spell(ds[0]) + Spelled(ds[1..])
  }

  lemma {:induction false} SpelledAppend(a: seq<Decl>, b: seq<Decl>)
    ensures Spelled(a + b) == Spelled(a) + Spelled(b)
    decreases |a|
  {
    if a == [] {
      assert a + b == b;
    } else {
      assert (a + b)[1..] == a[1..] + b;
      SpelledAppend(a[1..], b);
    }
  }

  lemma SpellOption(path: Path, base: Opt, opt: Opt)
    ensures Spelled(OwnOption(path, base, opt)) == ShortChars(base, opt)
  {
    if !base.docOnly {
      var d := Decl(path, base, opt);
      assert [d][1..] == [] && Spell(d) + [] == Spell(d);
    }
  }

  lemma {:induction false} OptionsSpelled(t: Tables, opts: seq<Opt>, i: nat, g: nat, path: Path)
    requires i < |opts|
    ensures AddOptions(t, BaseBefore(opts, i), opts[i..], g).shorts == t.shorts + Spelled(OwnOptions(path, opts, i))
    decreases |opts| - i
  {
    hide *;
    var r := BaseAt(opts, i);
    var t1 := t.(shorts := t.shorts + ShortChars(r, opts[i]), longs := LongsOf(t.longs, r, opts[i], g));
    var mine := OwnOption(path, r, opts[i]);
    var rest := OwnOptions(path, opts, i + 1);
    OwnOptionsCons(path, opts, i);
    AddOptionsStep(t, opts, i, g);
    SpellOption(path, r, opts[i]);
    SpelledAppend(mine, rest);
    if i + 1 < |opts| {
      OptionsSpelled(t1, opts, i + 1, g, path);
      Regroup(t.shorts, Spelled(mine), Spelled(rest));
    } else {
      assert mine + [] == mine;
    }
  }

  lemma Regroup(x: seq<int>, y: seq<int>, z: seq<int>)
    ensures x + y + z == x + (y + z)
  {
  }

  lemma OwnOptionsCons(path: Path, opts: seq<Opt>, i: nat)
    requires i < |opts|
    ensures OwnOptions(path, opts, i) == OwnOption(path, BaseAt(opts, i), opts[i]) + OwnOptions(path, opts, i + 1)
    ensures i + 1 == |opts| ==> OwnOptions(path, opts, i + 1) == []
  {
    hide OwnOption, BaseAt;
  }

  lemma {:induction false} TreeSpelled(a: Argp, path: Path, parent: Option<nat>, index: nat, t: Tables)
    ensures Convert(a, path, parent, index, t).shorts == t.shorts + Spelled(TreeOptions(a, path))
    decreases a, 0
  {
    hide *;
    var mine, rest := OwnOptions(path, OptionsOf(a), 0), ChildrenOptions(a.children, path, 0);
    TreeCons(a, path, parent, index, t);
    SpelledAppend(mine, rest);
    Regroup(t.shorts, Spelled(mine), Spelled(rest));
    if HasGroup(a) {
      GroupSpelled(a, path, parent, index, t);
      ChildrenSpelled(a.children, path, Some(|t.groups|), 0, AddGroup(a, path, parent, index, t));
    } else {
      assert t.shorts + [] == t.shorts;
      ChildrenSpelled(a.children, path, None, 0, t);
    }
  }

  lemma {:induction false} TreeCons(a: Argp, path: Path, parent: Option<nat>, index: nat, t: Tables)
    ensures TreeOptions(a, path) == OwnOptions(path, OptionsOf(a), 0) + ChildrenOptions(a.children, path, 0)
    ensures Convert(a, path, parent, index, t)
         == if HasGroup(a) then ConvertChildren(a.children, path, Some(|t.groups|), 0, AddGroup(a, path, parent, index, t))
            else ConvertChildren(a.children, path, None, 0, t)
    ensures !HasGroup(a) ==> Spelled(OwnOptions(path, OptionsOf(a), 0)) == []
  {
    hide AddGroup, ConvertChildren, ChildrenOptions;
  }

  lemma GroupSpelled(a: Argp, path: Path, parent: Option<nat>, index: nat, t: Tables)
    ensures AddGroup(a, path, parent, index, t).shorts == t.shorts + Spelled(OwnOptions(path, OptionsOf(a), 0))
  {
    var opts := OptionsOf(a);
    if opts == [] {
      assert t.shorts + [] == t.shorts;
    } else {
      assert opts[0..] == opts;
      OptionsSpelled(t, opts, 0, |t.groups|, path);
    }
    hide AddOptions, Spelled, OwnOptions;
  }

  lemma {:induction false} ChildrenSpelled(cs: seq<Child>, path: Path, parent: Option<nat>, index: nat, t: Tables)
    ensures ConvertChildren(cs, path, parent, index, t).shorts == t.shorts + Spelled(ChildrenOptions(cs, path, index))
    decreases cs, 0
  {
    hide *;
    ChildrenCons(cs, path, parent, index, t);
    if cs == [] {
      assert t.shorts + [] == t.shorts;
    } else {
      var mine, rest := ChildOptions(cs[0], path, index), ChildrenOptions(cs[1..], path, index + 1);
      ChildSpelled(cs[0], path, parent, index, t);
      ChildrenSpelled(cs[1..], path, parent, index + 1, ConvertChild(cs[0], path, parent, index, t));
      SpelledAppend(mine, rest);
      Regroup(t.shorts, Spelled(mine), Spelled(rest));
    }
  }

  lemma {:induction false} ChildrenCons(cs: seq<Child>, path: Path, parent: Option<nat>, index: nat, t: Tables)
    ensures cs == [] ==> ConvertChildren(cs, path, parent, index, t) == t && Spelled(ChildrenOptions(cs, path, index)) == []
    ensures cs != [] ==>
      && ConvertChildren(cs, path, parent, index, t)
         == ConvertChildren(cs[1..], path, parent, index + 1, ConvertChild(cs[0], path, parent, index, t))
      && ChildrenOptions(cs, path, index) == ChildOptions(cs[0], path, index) + ChildrenOptions(cs[1..], path, index + 1)
  {
    hide ConvertChild, ChildOptions;
  }

  lemma {:induction false} ChildSpelled(c: Child, path: Path, parent: Option<nat>, index: nat, t: Tables)
    ensures ConvertChild(c, path, parent, index, t).shorts == t.shorts + Spelled(ChildOptions(c, path, index))
    decreases c, 0
  {
    TreeSpelled(c.argp, path + [index], parent, index, t);
  }

  // ---- reading ----

  lemma {:induction false} FirstBehind(a: seq<int>, b: seq<int>, c: int)
    requires c !in a
    ensures FirstIndex(a + b, c) == Later(FirstIndex(b, c), |a|)
    decreases |a|
  {
    if a == [] {
      assert a + b == b;
    } else {
      assert (a + b)[1..] == a[1..] + b && a[0] != c;
      FirstBehind(a[1..], b, c);
    }
  }

  /** A character other than a colon is in the string only as a key. */
  lemma {:induction false} SpelledHas(ds: seq<Decl>, c: int)
    requires c != COLON
    ensures c in Spelled(ds) <==> exists p: nat :: FirstShortOf(ds, c, p)
    decreases |ds|
  {
    if ds != [] {
      SpelledHas(ds[1..], c);
      hide Spelled;
      if c in Spell(ds[0]) {
        assert FirstShortOf(ds, c, 0);
      } else {
        if p: nat :| FirstShortOf(ds[1..], c, p) {
          assert FirstShortOf(ds, c, p + 1);
        }
        if p: nat :| FirstShortOf(ds, c, p) {
          assert p > 0 && FirstShortOf(ds[1..], c, p - 1);
        }
      }
    }
  }

  /** The string goes on with a colon that is a key. */
  lemma {:induction false} SpelledStart(ds: seq<Decl>, p: nat)
    requires p < |ds|
    ensures var s := Spelled(ds[p + 1..]); (s != [] && s[0] == COLON) <==> ColonNext(ds, p)
    decreases |ds| - p
  {
    var rest := ds[p + 1..];
    if rest != [] {
      var d := rest[0];
      assert rest[1..] == ds[p + 2..] && d == ds[p + 1];
      assert Spelled(rest) == Spell(d) + Spelled(ds[p + 2..]);
      if IsShort(d.opt) {
        if d.opt.key == COLON {
          assert ColonNext(ds, p);
        }
      } else {
        SpelledStart(ds, p + 1);
        NextStill(ds, p);
      }
    }
  }

  lemma NextStill(ds: seq<Decl>, p: nat)
    requires p + 1 < |ds| && !IsShort(ds[p + 1].opt)
    ensures ColonNext(ds, p) <==> ColonNext(ds, p + 1)
  {
  }

  /** What is read behind a key that is spelled here, with the rest of the string behind it. */
  lemma ReadAt(before: seq<int>, d: Decl, after: seq<int>)
    requires IsShort(d.opt)
    ensures ArgumentOf(ArgumentAt(before + (Spell(d) + after), |before|), d.base)
       <==> (d.base.hasArg && d.base.argOptional) || after == [] || after[0] != COLON
  {
    var s, i := before + (Spell(d) + after), |before|;
    assert forall k :: 0 <= k < |Spell(d) + after| ==> s[i + k] == (Spell(d) + after)[k];
  }

  lemma SpelledAt(ds: seq<Decl>, p: nat)
    requires p < |ds|
    ensures Spelled(ds) == Spelled(ds[..p]) + (Spell(ds[p]) + Spelled(ds[p + 1..]))
  {
    Around(ds, p);
    hide *;
    var front, back := ds[..p], ds[p + 1..];
    SpelledAppend(front, [ds[p]] + back);
    SpelledCons(ds[p], back);
  }

  lemma Around(ds: seq<Decl>, p: nat)
    requires p < |ds|
    ensures ds == ds[..p] + ([ds[p]] + ds[p + 1..])
  {
  }

  lemma SpelledCons(d: Decl, back: seq<Decl>)
    ensures Spelled([d] + back) == Spell(d) + Spelled(back)
  {
    hide Spell;
    assert ([d] + back)[1..] == back;
  }

  lemma NotBefore(ds: seq<Decl>, c: int, p: nat)
    requires c != COLON && FirstShortOf(ds, c, p)
    ensures c !in Spelled(ds[..p])
  {
    SpelledHas(ds[..p], c);
    hide Spelled;
    forall q: nat ensures !FirstShortOf(ds[..p], c, q) {
      if q < p {
        assert ds[..p][q] == ds[q];
      }
    }
  }

  lemma ReadSpelled(prefix: seq<int>, ds: seq<Decl>, c: int, p: nat)
    requires c != COLON && c !in prefix && FirstShortOf(ds, c, p)
    ensures var s := prefix + Spelled(ds); var i := FirstIndex(s, c);
      && i.Some?
      && (ArgumentOf(ArgumentAt(s, i.value), ds[p].base)
          <==> (ds[p].base.hasArg && ds[p].base.argOptional) || !ColonNext(ds, p))
  {
    assert IsShort(ds[p].opt) && ds[p].opt.key == c;
    hide *;
    var d, front, after := ds[p], Spelled(ds[..p]), Spelled(ds[p + 1..]);
    SpelledAt(ds, p);
    NotBefore(ds, c, p);
    SpelledStart(ds, p);
    var before := prefix + front;
    Joined(prefix, front, Spell(d) + after, c);
    FirstBehind(before, Spell(d) + after, c);
    SpellHead(d, after);
    LaterZero(|before|);
    ReadAt(before, d, after);
  }

  lemma Joined(x: seq<int>, y: seq<int>, z: seq<int>, c: int)
    requires c !in x && c !in y
    ensures x + (y + z) == (x + y) + z && c !in x + y
  {
  }

  lemma SpellHead(d: Decl, after: seq<int>)
    requires IsShort(d.opt)
    ensures FirstIndex(Spell(d) + after, d.opt.key) == Some(0)
  {
    assert (Spell(d) + after)[0] == d.opt.key;
  }

  lemma LaterZero(k: nat)
    ensures Later(Some(0), k) == Some(k)
  {
  }

  /**
   For every tree and every short option but the three characters with a meaning of their own:
   getopt knows it exactly if some option that is no documentation declares it, and takes it
   for one with no, a required or an optional argument as the real option behind its first
   declaration has, if and only if that argument is optional or the next short option declared
   is not a colon.
   */
  lemma ShortArguments(a: Argp, flags: Flags, c: int)
    requires c != COLON && c != MINUS && c != PLUS
    ensures var s := ParserConvert(a, flags).shorts; var ds := TreeOptions(a, []); var i := FirstIndex(s, c);
      && (i.Some? <==> exists p: nat :: FirstShortOf(ds, c, p))
      && forall p: nat :: FirstShortOf(ds, c, p) ==>
           && i.Some?
           && (ArgumentOf(ArgumentAt(s, i.value), ds[p].base)
               <==> (ds[p].base.hasArg && ds[p].base.argOptional) || !ColonNext(ds, p))
  {
    var prefix, ds := Prefix(flags), TreeOptions(a, []);
    TreeSpelled(a, [], None, 0, Tables(prefix, [], [], 0));
    SpelledHas(ds, c);
    FirstBehind(prefix, Spelled(ds), c);
    Occurs(Spelled(ds), c);
    hide Spelled, TreeOptions, Convert, FirstIndex, ArgumentAt, ArgumentOf;
    forall p: nat | FirstShortOf(ds, c, p)
      ensures var s := prefix + Spelled(ds); var i := FirstIndex(s, c);
        && i.Some?
        && (ArgumentOf(ArgumentAt(s, i.value), ds[p].base)
            <==> (ds[p].base.hasArg && ds[p].base.argOptional) || !ColonNext(ds, p))
    {
      ReadSpelled(prefix, ds, c, p);
    }
  }

  lemma {:induction false} Occurs(s: seq<int>, c: int)
    ensures FirstIndex(s, c).Some? <==> c in s
    decreases |s|
  {
    if s != [] {
      Occurs(s[1..], c);
      assert s == [s[0]] + s[1..];
    }
  }

  /** In a tree without the option `-:` every short option is taken for what it is. */
  lemma ShortArgumentsKept(a: Argp, flags: Flags, c: int, p: nat)
    requires c != COLON && c != MINUS && c != PLUS
    requires var ds := TreeOptions(a, []);
      FirstShortOf(ds, c, p) && forall q :: 0 <= q < |ds| ==> ds[q].opt.key != COLON
    ensures var s := ParserConvert(a, flags).shorts; var i := FirstIndex(s, c);
      i.Some? && ArgumentOf(ArgumentAt(s, i.value), TreeOptions(a, [])[p].base)
  {
    ShortArguments(a, flags, c);
    hide ParserConvert, TreeOptions, FirstIndex, ArgumentAt, ArgumentOf, FirstShortOf;
  }

  // ---- the character that says how arguments are treated ----

  /** What getopt does with arguments between options. */
  datatype Ordering = Permutes | StopsAtArgument | InOrder

  function OrderingOf(s: seq<int>): Ordering {
    if s == [] then Permutes else if s[0] == MINUS then InOrder else if s[0] == PLUS then StopsAtArgument else Permutes
  }

  /** The first short option declared. */
  predicate Foremost(ds: seq<Decl>, c: int) {
    exists p :: 0 <= p < |ds| && IsShort(ds[p].opt) && ds[p].opt.key == c && forall q :: 0 <= q < p ==> !IsShort(ds[q].opt)
  }

  lemma {:induction false} SpelledFirst(ds: seq<Decl>, c: int)
    ensures (Spelled(ds) != [] && Spelled(ds)[0] == c) <==> Foremost(ds, c)
    decreases |ds|
  {
    if ds != [] {
      if IsShort(ds[0].opt) {
        assert ds[0].opt.key == c ==> Foremost(ds, c);
      } else {
        SpelledFirst(ds[1..], c);
        if Foremost(ds[1..], c) {
          var p :| 0 <= p < |ds| - 1 && IsShort(ds[1..][p].opt) && ds[1..][p].opt.key == c
                && forall q :: 0 <= q < p ==> !IsShort(ds[1..][q].opt);
          assert forall q :: 0 < q < p + 1 ==> ds[q] == ds[1..][q - 1];
          assert IsShort(ds[p + 1].opt);
        }
      }
    }
  }

  /**
   Arguments are taken in order, or end the options, exactly as the flags ask, except that
   without either flag the first short option of the tree must not be `-` or `+`.
   */
  lemma OrderingRead(a: Argp, flags: Flags)
    ensures var o := OrderingOf(ParserConvert(a, flags).shorts); var ds := TreeOptions(a, []);
      && (flags.inOrder ==> o == InOrder)
      && (!flags.inOrder && flags.noArgs ==> o == StopsAtArgument)
      && (!flags.inOrder && !flags.noArgs ==> (o == Permutes <==> !Foremost(ds, MINUS) && !Foremost(ds, PLUS)))
  {
    var ds := TreeOptions(a, []);
    TreeSpelled(a, [], None, 0, Tables(Prefix(flags), [], [], 0));
    SpelledFirst(ds, MINUS);
    SpelledFirst(ds, PLUS);
    hide Spelled, TreeOptions, Convert, Foremost;
    assert [] + Spelled(ds) == Spelled(ds);
  }

  function Plain(key: int): Opt {
    Opt(None, key, false, false, false, false, false, true, 0)
  }

  /** `-f` without an argument before `-:`: getopt takes it for one that has one. */
  lemma ColonMisread(flags: Flags)
    ensures var a := Argp(Some([Plain(102), Plain(COLON)]), true, []);
      var s := ParserConvert(a, flags).shorts; var i := FirstIndex(s, 102);
      i.Some? && ArgumentAt(s, i.value) != NoArgument
  {
    var f, colon := Plain(102), Plain(COLON);
    var opts := [f, colon];
    var a := Argp(Some(opts), true, []);
    var ds := TreeOptions(a, []);
    assert OwnOptions([], opts, 2) == [];
    assert OwnOptions([], opts, 1) == [Decl([], colon, colon)] + [] == [Decl([], colon, colon)];
    assert OwnOptions([], opts, 0) == [Decl([], f, f)] + [Decl([], colon, colon)];
    assert ChildrenOptions([], [], 0) == [] && OptionsOf(a) == opts && a.children == [];
    assert ds == OwnOptions([], opts, 0) + [] == [Decl([], f, f), Decl([], colon, colon)];
    assert FirstShortOf(ds, 102, 0) && ds[1].opt.key == COLON && IsShort(ds[1].opt);
    assert ColonNext(ds, 0);
    MisreadAt(a, flags, 102, 0);
  }

  /** An option without an argument whose declaration is followed by that of a colon. */
  lemma MisreadAt(a: Argp, flags: Flags, c: int, p: nat)
    requires c != COLON && c != MINUS && c != PLUS
    requires var ds := TreeOptions(a, []); FirstShortOf(ds, c, p) && !ds[p].base.hasArg && ColonNext(ds, p)
    ensures var s := ParserConvert(a, flags).shorts; var i := FirstIndex(s, c); i.Some? && ArgumentAt(s, i.value) != NoArgument
  {
    ShortArguments(a, flags, c);
    hide ParserConvert, TreeOptions, FirstIndex, ColonNext, ArgumentAt;
  }

  /** An option `-` first: arguments come in order though no flag asks for it. */
  lemma DashMisread()
    ensures var a := Argp(Some([Plain(MINUS)]), true, []); OrderingOf(ParserConvert(a, Flags(false, false)).shorts) == InOrder
  {
    var dash := Plain(MINUS);
    var a := Argp(Some([dash]), true, []);
    assert OwnOptions([], [dash], 1) == [];
    assert OwnOptions([], [dash], 0) == [Decl([], dash, dash)] + [] == [Decl([], dash, dash)];
    assert ChildrenOptions([], [], 0) == [] && OptionsOf(a) == [dash] && a.children == [];
    assert TreeOptions(a, []) == OwnOptions([], [dash], 0) + [] == [Decl([], dash, dash)];
    TreeSpelled(a, [], None, 0, Tables([], [], [], 0));
    assert Spelled([Decl([], dash, dash)]) == [MINUS] + Spelled([]) == [MINUS];
  }
}
