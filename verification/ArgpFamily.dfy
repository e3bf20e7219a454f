/**
 The groups a tree of parsers is converted to stand as the tree does: a group's parent is the
 group of the parser that lists its own as a child, if that one has a group, its index the
 place in that list, and every group comes before those below it.
 */
module ArgpFamily {
  import opened Options
  import opened ArgpTypes
  import opened ArgpHol
  import opened ArgpTables

  predicate ListedBy(path: Path, above: Path) {
    path != [] && above == path[..|path| - 1]
  }

  /** The parent of a group at `path`. */
  predicate ParentIs(parent: Option<nat>, path: Path, groups: seq<Group>) {
    && (parent.Some? ==> parent.value < |groups|)
    && forall j: nat :: j < |groups| ==> (parent == Some(j) <==> ListedBy(path, groups[j].owner))
  }

  predicate Linked(groups: seq<Group>) {
    && (forall i: nat :: i < |groups| ==> ParentIs(groups[i].parent, groups[i].owner, groups))
    && (forall i: nat :: i < |groups| && groups[i].owner != [] ==> groups[i].parentIndex == Last(groups[i].owner))
  }

  function Last(path: Path): nat
    requires path != []
  {
    path[|path| - 1]
  }

  /** A group comes before every group below it. */
  predicate TopDown(groups: seq<Group>) {
    forall i: nat, j: nat :: i < |groups| && j < |groups| && groups[i].owner < groups[j].owner ==> i < j
  }

  /** No group is at `path` or below it. */
  predicate Vacant(path: Path, groups: seq<Group>) {
    forall j: nat :: j < |groups| ==> !(path <= groups[j].owner)
  }

  ghost predicate VacantFrom(path: Path, index: nat, groups: seq<Group>) {
    forall k: nat :: k >= index ==> Vacant(path + [k], groups)
  }

  /** `more` continues `groups` with groups that are at `path` or below it. */
  predicate Continues(groups: seq<Group>, more: seq<Group>, path: Path) {
    groups <= more && forall j: nat :: |groups| <= j < |more| ==> path <= more[j].owner
  }

  lemma AddLinked(groups: seq<Group>, g: Group)
    requires Linked(groups) && TopDown(groups) && Vacant(g.owner, groups) && ParentIs(g.parent, g.owner, groups)
    requires g.owner != [] ==> g.parentIndex == Last(g.owner)
    ensures Linked(groups + [g]) && TopDown(groups + [g])
  {
    var more := groups + [g];
    forall i: nat | i < |more| ensures ParentIs(more[i].parent, more[i].owner, more) {
      StillParent(groups, g, if i < |groups| then groups[i] else g);
    }
  }

  lemma StillParent(groups: seq<Group>, g: Group, x: Group)
    requires ParentIs(x.parent, x.owner, groups) && (x == g || !(g.owner <= x.owner))
    ensures ParentIs(x.parent, x.owner, groups + [g])
  {
    assert !ListedBy(x.owner, g.owner);
  }

  /** The group of one parser. */
  lemma GroupAdded(a: Argp, path: Path, parent: Option<nat>, index: nat, t: Tables)
    ensures var t1 := AddGroup(a, path, parent, index, t);
      && |t1.groups| == |t.groups| + 1 && t1.groups == t.groups + [t1.groups[|t.groups|]]
      && var g := t1.groups[|t.groups|]; g.owner == path && g.parent == parent && g.parentIndex == index
  {
    if OptionsOf(a) != [] {
      AddOptionsGroups(t, OptionsOf(a)[0], OptionsOf(a), |t.groups|);
    }
  }

  /** Who is above and who may be below once a parser's own group is there. */
  lemma Entered(path: Path, groups: seq<Group>, g: Group)
    requires Vacant(path, groups) && g.owner == path
    ensures VacantFrom(path, 0, groups + [g]) && Inside(Some(|groups|), path, groups + [g])
  {
    forall k: nat ensures Vacant(path + [k], groups + [g]) {
      DeeperVacant(path, k, groups);
    }
  }

  lemma Skipped(path: Path, groups: seq<Group>)
    requires Vacant(path, groups)
    ensures VacantFrom(path, 0, groups) && Inside(None, path, groups)
  {
    forall k: nat ensures Vacant(path + [k], groups) {
      DeeperVacant(path, k, groups);
    }
  }

  lemma DeeperVacant(path: Path, k: nat, groups: seq<Group>)
    requires Vacant(path, groups)
    ensures Vacant(path + [k], groups)
  {
    forall j: nat | j < |groups| ensures !(path + [k] <= groups[j].owner) {
      assert path <= path + [k];
    }
  }

  /** `parent` is the group at `path`, if there is one. */
  predicate Inside(parent: Option<nat>, path: Path, groups: seq<Group>) {
    && (parent.Some? ==> parent.value < |groups|)
    && forall j: nat :: j < |groups| ==> (parent == Some(j) <==> groups[j].owner == path)
  }

  lemma ParentOfChild(parent: Option<nat>, path: Path, k: nat, groups: seq<Group>)
    requires Inside(parent, path, groups)
    ensures ParentIs(parent, path + [k], groups)
  {
    assert (path + [k])[..|path|] == path;
  }

  /** After a child, its siblings find things as it did. */
  lemma NextSibling(parent: Option<nat>, path: Path, k: nat, groups: seq<Group>, more: seq<Group>)
    requires Inside(parent, path, groups) && VacantFrom(path, k, groups) && Continues(groups, more, path + [k])
    ensures Inside(parent, path, more) && VacantFrom(path, k + 1, more)
  {
    forall j: nat | j < |more| ensures parent == Some(j) <==> more[j].owner == path {
      if j < |groups| {
        assert more[j] == groups[j];
      }
    }
    forall m: nat | m >= k + 1 ensures Vacant(path + [m], more) {
      assert Vacant(path + [m], groups);
      forall j: nat | j < |more| ensures !(path + [m] <= more[j].owner) {
        if j < |groups| {
          assert more[j] == groups[j];
        } else {
          assert more[j].owner[|path|] == (path + [k])[|path|] == k;
        }
      }
    }
  }

  lemma Chained(groups: seq<Group>, more: seq<Group>, most: seq<Group>, path: Path, at: Path)
    requires Continues(groups, more, at) && Continues(more, most, path) && path <= at
    ensures Continues(groups, most, path)
  {
    forall j: nat | |groups| <= j < |most| ensures path <= most[j].owner {
      if j < |more| {
        assert most[j] == more[j];
      }
    }
  }

  /** What is kept all through the conversion. */
  predicate Kept(groups: seq<Group>) {
    Linked(groups) && TopDown(groups)
  }

  lemma {:induction false} ConvertLinked(a: Argp, path: Path, parent: Option<nat>, index: nat, t: Tables)
    requires Kept(t.groups) && Vacant(path, t.groups) && ParentIs(parent, path, t.groups) && (path != [] ==> index == Last(path))
    ensures var t1 := Convert(a, path, parent, index, t); Kept(t1.groups) && Continues(t.groups, t1.groups, path)
    decreases a, 0
  {
    if HasGroup(a) {
      var t1 := AddGroup(a, path, parent, index, t);
      GroupAdded(a, path, parent, index, t);
      hide AddGroup;
      var g := t1.groups[|t.groups|];
      AddLinked(t.groups, g);
      Entered(path, t.groups, g);
      assert Continues(t.groups, t1.groups, path);
      hide Kept, Vacant, VacantFrom, ParentIs, Inside;
      LinkedChildren(a.children, path, Some(|t.groups|), 0, t1);
      hide Continues;
      Chained(t.groups, t1.groups, Convert(a, path, parent, index, t).groups, path, path);
    } else {
      Skipped(path, t.groups);
      hide Kept, Vacant, VacantFrom, ParentIs, Inside, Continues;
      LinkedChildren(a.children, path, None, 0, t);
    }
  }

  lemma {:induction false} LinkedChildren(cs: seq<Child>, path: Path, parent: Option<nat>, index: nat, t: Tables)
    requires Kept(t.groups) && Inside(parent, path, t.groups) && VacantFrom(path, index, t.groups)
    ensures var t1 := ConvertChildren(cs, path, parent, index, t); Kept(t1.groups) && Continues(t.groups, t1.groups, path)
    decreases cs, 0
  {
    if cs != [] {
      assert Vacant(path + [index], t.groups);
      assert path <= path + [index];
      hide Kept, Vacant, VacantFrom, Inside, Continues;
      var t1 := ConvertChild(cs[0], path, parent, index, t);
      LinkedChild(cs[0], path, parent, index, t);
      NextSibling(parent, path, index, t.groups, t1.groups);
      LinkedChildren(cs[1..], path, parent, index + 1, t1);
      Chained(t.groups, t1.groups, ConvertChildren(cs, path, parent, index, t).groups, path, path + [index]);
    }
  }

  lemma {:induction false} LinkedChild(c: Child, path: Path, parent: Option<nat>, index: nat, t: Tables)
    requires Kept(t.groups) && Inside(parent, path, t.groups) && Vacant(path + [index], t.groups)
    ensures var t1 := ConvertChild(c, path, parent, index, t); Kept(t1.groups) && Continues(t.groups, t1.groups, path + [index])
    decreases c, 0
  {
    ParentOfChild(parent, path, index, t.groups);
    ConvertLinked(c.argp, path + [index], parent, index, t);
  }

  /** For every tree. */
  lemma FamilyLinked(a: Argp, flags: Flags)
    ensures var groups := ParserConvert(a, flags).groups; Linked(groups) && TopDown(groups)
  {
    ConvertLinked(a, [], None, 0, Tables(Prefix(flags), [], [], 0));
  }

  // ---- which parsers have groups ----

  /** The parser at a place in the tree. */
  function At(a: Argp, path: Path): Option<Argp>
    decreases |path|
  {
    if path == [] then Some(a)
    else if path[0] < |a.children| then At(a.children[path[0]].argp, path[1..])
    else None
  }

  predicate Owns(a: Argp) {
    a.options.Some? || a.hasParser
  }

  /** A group is that of a parser with options or a function, and has the function if that has. */
  predicate Describes(root: Argp, g: Group) {
    At(root, g.owner).Some? && Owns(At(root, g.owner).value) && g.hasParser == At(root, g.owner).value.hasParser
  }

  /** Where the input slots of a group's children end. */
  function SlotsEnd(root: Argp, g: Group): nat {
    g.inputs + if At(root, g.owner).Some? then |At(root, g.owner).value.children| else 0
  }

  /** Groups describe parsers, and have slots of their own for the children's inputs. */
  predicate Described(root: Argp, groups: seq<Group>, inputs: nat) {
    && (forall i :: 0 <= i < |groups| ==> Describes(root, groups[i]) && SlotsEnd(root, groups[i]) <= inputs)
    && (forall i, j :: 0 <= i < j < |groups| ==> SlotsEnd(root, groups[i]) <= groups[j].inputs)
  }

  predicate Stands(groups: seq<Group>, path: Path) {
    exists j :: 0 <= j < |groups| && groups[j].owner == path
  }

  /** Every parser at `path` or below that has options or a function has a group. */
  ghost predicate Filled(root: Argp, path: Path, groups: seq<Group>) {
    forall p :: path <= p && At(root, p).Some? && Owns(At(root, p).value) ==> Stands(groups, p)
  }

  lemma {:induction false} AtAppend(a: Argp, p: Path, q: Path)
    ensures At(a, p + q) == if At(a, p).Some? then At(At(a, p).value, q) else None
    decreases |p|
  {
    if p == [] {
      assert p + q == q;
    } else if p[0] < |a.children| {
      AtAppend(a.children[p[0]].argp, p[1..], q);
      assert (p + q)[0] == p[0] && (p + q)[1..] == p[1..] + q;
    }
  }

  lemma AtChild(root: Argp, path: Path, a: Argp, k: nat)
    requires At(root, path) == Some(a)
    ensures At(root, path + [k]) == if k < |a.children| then Some(a.children[k].argp) else None
  {
    AtAppend(root, path, [k]);
    assert [k][1..] == [];
    assert k < |a.children| ==> At(a.children[k].argp, []) == Some(a.children[k].argp);
  }

  lemma FilledMore(root: Argp, path: Path, groups: seq<Group>, more: seq<Group>)
    requires Filled(root, path, groups) && groups <= more
    ensures Filled(root, path, more)
  {
    forall p | Stands(groups, p) ensures Stands(more, p) {
      var j :| 0 <= j < |groups| && groups[j].owner == p;
      assert more[j] == groups[j];
    }
  }

  lemma GroupDescribed(root: Argp, a: Argp, path: Path, parent: Option<nat>, index: nat, t: Tables)
    requires At(root, path) == Some(a) && HasGroup(a) && Described(root, t.groups, t.inputs)
    ensures var t1 := AddGroup(a, path, parent, index, t);
      Described(root, t1.groups, t1.inputs) && t.groups <= t1.groups && Stands(t1.groups, path)
  {
    if OptionsOf(a) != [] {
      AddOptionsGroups(t, OptionsOf(a)[0], OptionsOf(a), |t.groups|);
      AddOptionsInputs(t, OptionsOf(a)[0], OptionsOf(a), |t.groups|);
    }
    hide AddOptions, At;
    var t1 := AddGroup(a, path, parent, index, t);
    assert t1.groups == t.groups + [t1.groups[|t.groups|]] && t1.groups[|t.groups|].owner == path;
    assert t1.inputs == t.inputs + |a.children| && t1.groups[|t.groups|].inputs == t.inputs;
  }

  lemma {:induction false} AddOptionsInputs(t: Tables, base: Opt, opts: seq<Opt>, g: nat)
    ensures AddOptions(t, base, opts, g).inputs == t.inputs
    decreases |opts|
  {
    if opts != [] {
      var r := Real(base, opts[0]);
      AddOptionsInputs(t.(shorts := t.shorts + ShortChars(r, opts[0]), longs := LongsOf(t.longs, r, opts[0], g)), r, opts[1..], g);
    }
  }

  /** A parser is filled if it stands where it should and its children are filled. */
  lemma FilledHere(root: Argp, a: Argp, path: Path, groups: seq<Group>)
    requires At(root, path) == Some(a) && (Owns(a) ==> Stands(groups, path))
    requires forall k :: 0 <= k < |a.children| ==> Filled(root, path + [k], groups)
    ensures Filled(root, path, groups)
  {
    forall p | path <= p && At(root, p).Some? && Owns(At(root, p).value) ensures Stands(groups, p) {
      if p != path {
        var k := p[|path|];
        assert p == (path + [k]) + p[|path| + 1..];
        AtChild(root, path, a, k);
        AtAppend(root, path + [k], p[|path| + 1..]);
      }
    }
  }

  lemma {:induction false} ConvertDescribed(root: Argp, a: Argp, path: Path, parent: Option<nat>, index: nat, t: Tables)
    requires At(root, path) == Some(a) && Described(root, t.groups, t.inputs)
    ensures var t1 := Convert(a, path, parent, index, t);
      Described(root, t1.groups, t1.inputs) && t.groups <= t1.groups && Filled(root, path, t1.groups)
    decreases a, 0
  {
    var t1 := if HasGroup(a) then AddGroup(a, path, parent, index, t) else t;
    if HasGroup(a) {
      GroupDescribed(root, a, path, parent, index, t);
    }
    var most := Convert(a, path, parent, index, t);
    assert a.children[0..] == a.children;
    hide AddGroup, Described, Filled, At;
    DescribedChildren(root, a, a.children, path, if HasGroup(a) then Some(|t.groups|) else None, 0, t1);
    if Owns(a) {
      StandsStill(t1.groups, most.groups, path);
    }
    FilledHere(root, a, path, most.groups);
  }

  lemma StandsStill(groups: seq<Group>, more: seq<Group>, path: Path)
    requires Stands(groups, path) && groups <= more
    ensures Stands(more, path)
  {
    var j :| 0 <= j < |groups| && groups[j].owner == path;
    assert more[j] == groups[j];
  }

  lemma {:induction false} DescribedChildren(root: Argp, a: Argp, cs: seq<Child>, path: Path, parent: Option<nat>, index: nat, t: Tables)
    requires At(root, path) == Some(a) && Described(root, t.groups, t.inputs)
    requires index <= |a.children| && cs == a.children[index..]
    ensures var t1 := ConvertChildren(cs, path, parent, index, t);
      && Described(root, t1.groups, t1.inputs) && t.groups <= t1.groups
      && forall k :: index <= k < |a.children| ==> Filled(root, path + [k], t1.groups)
    decreases cs, 0
  {
    if cs != [] {
      AtChild(root, path, a, index);
      hide Described, Filled, At;
      var t1 := ConvertChild(cs[0], path, parent, index, t);
      DescribedChild(root, cs[0], path, parent, index, t);
      DescribedChildren(root, a, cs[1..], path, parent, index + 1, t1);
      FilledMore(root, path + [index], t1.groups, ConvertChildren(cs, path, parent, index, t).groups);
    }
  }

  lemma {:induction false} DescribedChild(root: Argp, c: Child, path: Path, parent: Option<nat>, index: nat, t: Tables)
    requires At(root, path + [index]) == Some(c.argp) && Described(root, t.groups, t.inputs)
    ensures var t1 := ConvertChild(c, path, parent, index, t);
      Described(root, t1.groups, t1.inputs) && t.groups <= t1.groups && Filled(root, path + [index], t1.groups)
    decreases c, 0
  {
    ConvertDescribed(root, c.argp, path + [index], parent, index, t);
  }

  /**
   For every tree: the groups are exactly those of the parsers that have options or a function,
   each with that function or without one, and no two share a slot for the input of a child.
   */
  lemma FamilyDescribed(a: Argp, flags: Flags)
    ensures var t := ParserConvert(a, flags);
      && Described(a, t.groups, t.inputs)
      && forall p :: At(a, p).Some? && Owns(At(a, p).value) <==> Stands(t.groups, p)
  {
    ConvertDescribed(a, a, [], None, 0, Tables(Prefix(flags), [], [], 0));
  }
}
