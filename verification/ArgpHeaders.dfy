/**
 Cluster headers in the help output: before which entries the header of a cluster is printed.
 Everything here is about clusters that have a header text.
 */
module ArgpHeaders {
  import opened Options
  import opened ArgpTypes
  import opened ArgpOrder
  import ArgpHol

  // ---- what is printed for an entry ----

  /** At least one switch: a visible short option that is not shadowed, or a visible name. */
  predicate Switches(e: Entry) {
    ShortOf(e) != 0 || FirstLong(e.opts).Some?
  }

  /** No switch, but a line of documentation that heads a group. */
  predicate HeadsGroup(e: Entry) {
    !Switches(e) && e.opts != [] && !IsShort(e.opts[0]) && e.opts[0].name.None?
  }

  predicate Shown(e: Entry) {
    Switches(e) || HeadsGroup(e)
  }

  predicate Under(e: Entry, top: Cluster) {
    e.cluster.Some? && Within(e.cluster.value, top)
  }

  /** The last of the first `i` entries that something is printed for. */
  function Before(s: seq<Entry>, i: nat): (p: Option<nat>)
    requires i <= |s|
    ensures p.Some? ==> p.value < i && Shown(s[p.value]) && forall q :: p.value < q < i ==> !Shown(s[q])
    ensures p.None? ==> forall q :: 0 <= q < i ==> !Shown(s[q])
  {
    if i == 0 then None else if Shown(s[i - 1]) then Some(i - 1) else Before(s, i - 1)
  }

  /** The header of `top` is printed before entry `i`: the entry printed before it is not below `top`. */
  predicate Headed(s: seq<Entry>, i: nat, top: Cluster)
    requires i < |s|
  {
    && Switches(s[i]) && s[i].cluster == Some(top)
    && var p := Before(s, i);
    p.None? || !Under(s[p.value], top)
  }

  // ---- the loop ----

  /** `hol_help` as far as cluster headers go: the entries before which one is printed, and whose. */
  method HeaderLines(s: seq<Entry>) returns (lines: seq<(nat, Cluster)>)
    ensures forall i: nat, c :: (i, c) in lines <==> i < |s| && Headed(s, i, c)
    ensures forall k, l :: 0 <= k < l < |lines| ==> lines[k].0 < lines[l].0
  {
    lines := [];
    var prev: Option<nat> := None;
    var i := 0;
    while i < |s|
      invariant i <= |s| && prev == Before(s, i)
      invariant forall j: nat, c :: (j, c) in lines <==> j < i && Headed(s, j, c)
      invariant forall k :: 0 <= k < |lines| ==> lines[k].0 < i
      invariant forall k, l :: 0 <= k < l < |lines| ==> lines[k].0 < lines[l].0
    {
      var line, shown := EntryHelp(s, i, prev);
      hide Headed, Shown;
      if line.Some? {
        Lengthen(lines, i, line.value);
        lines := lines + [(i, line.value)];
      }
      if shown {
        prev := Some(i);
      }
      i := i + 1;
    }
  }

  lemma Lengthen(lines: seq<(nat, Cluster)>, i: nat, c: Cluster)
    ensures forall j: nat, d :: (j, d) in lines + [(i, c)] <==> (j, d) in lines || (j, d) == (i, c)
  {
  }

  /** `hol_entry_help` as far as headers go: the cluster whose header it prints, and whether it prints anything. */
  method EntryHelp(s: seq<Entry>, i: nat, prev: Option<nat>) returns (line: Option<Cluster>, shown: bool)
    requires i < |s| && prev == Before(s, i)
    ensures forall c :: line == Some(c) <==> Headed(s, i, c)
    ensures shown == Shown(s[i])
  {
    line := None;
    var short := HolEntryFirstShort(s[i]);
    var long := HolEntryFirstLong(s[i]);
    var first := short == 0 && long.None?;
    hide ShortOf, FirstLong;
    if !first && s[i].cluster.Some? {
      var below := false;
      if prev.Some? {
        below := HolClusterIsChild(s[prev.value].cluster, s[i].cluster.value);
      }
      if !below {
        line := s[i].cluster;
      }
    }
    shown := !first || (s[i].opts != [] && !IsShort(s[i].opts[0]) && s[i].opts[0].name.None?);
  }

  // ---- when the header comes ----

  /** A cluster's own entries come before those of the clusters below it. */
  lemma OwnFirst(s: seq<Entry>, p: nat, i: nat, top: Cluster)
    requires Sorted(s) && p < i < |s| && s[i].cluster == Some(top) && Under(s[p], top)
    ensures s[p].cluster == Some(top)
  {
    var c := s[p].cluster.value;
    WithinPlaces(c, top);
    SelfCmp(top);
    assert EntryCmp(s[p], s[i]) <= 0;
    hide NameCmp, Places, Sorted;
    assert Depth(c) > Depth(top) ==> ClusterCmp(c, top) == 1;
  }

  lemma SelfCmp(c: Cluster)
    ensures CousinCmp(c, c) == 0
  {
  }

  /** The entry lies below another cluster with the places of `top`. */
  predicate Twin(e: Entry, top: Cluster) {
    && e.cluster.Some? && Depth(top) <= Depth(e.cluster.value)
    && var a := Ancestor(e.cluster.value, Depth(top));
    a != top && Places(a) == Places(top)
  }

  predicate FirstOwn(s: seq<Entry>, j: nat, top: Cluster)
    requires j < |s|
  {
    Shown(s[j]) && s[j].cluster == Some(top) && forall q :: 0 <= q < j && Shown(s[q]) ==> s[q].cluster != Some(top)
  }

  /**
   Exactly when the header comes before an entry with a switch, in any sorted list: the entry
   is the first of its cluster that is shown, or the entry shown before it lies below another
   cluster with the same places.
   */
  lemma HeaderExactly(s: seq<Entry>, j: nat, top: Cluster)
    requires Sorted(s) && j < |s| && s[j].cluster == Some(top) && Switches(s[j])
    ensures Headed(s, j, top) <==>
      FirstOwn(s, j, top) || (Before(s, j).Some? && Twin(s[Before(s, j).value], top))
  {
    hide Switches, HeadsGroup, Sorted, Twin, Under;
    var p := Before(s, j);
    ShownSwitch(s[j]);
    if p.Some? {
      if Under(s[p.value], top) {
        OwnFirst(s, p.value, j, top);
        NotTwin(s[p.value], top);
      } else if !FirstOwn(s, j, top) {
        var q :| 0 <= q < j && Shown(s[q]) && s[q].cluster == Some(top);
        Outside(s, q, p.value, j, top);
      }
    }
  }

  lemma NotTwin(e: Entry, top: Cluster)
    requires Under(e, top)
    ensures !Twin(e, top)
  {
    WithinPlaces(e.cluster.value, top);
    hide Places;
  }

  /** What comes between two entries of a cluster without lying below it. */
  lemma Outside(s: seq<Entry>, q: nat, p: nat, j: nat, top: Cluster)
    requires Sorted(s) && q <= p < j < |s| && s[q].cluster == s[j].cluster == Some(top) && !Under(s[p], top)
    ensures Twin(s[p], top)
  {
    hide Sorted, Places;
    if q < p {
      ClusterContiguous(s, q, p, j, top);
      AncestorWithin(s[p].cluster.value, Depth(top));
    }
  }

  /**
   Where no entry shown lies below another cluster with the same places, a cluster's header is
   printed once if the first of its entries that is shown has a switch, and otherwise never.
   */
  lemma HeaderOnce(s: seq<Entry>, j: nat, top: Cluster)
    requires Sorted(s) && j < |s| && forall q :: 0 <= q < |s| && Shown(s[q]) ==> !Twin(s[q], top)
    ensures Headed(s, j, top) <==> FirstOwn(s, j, top) && Switches(s[j])
    ensures forall i :: 0 <= i < |s| && Headed(s, i, top) && Headed(s, j, top) ==> i == j
  {
    hide Sorted, Twin, Switches, HeadsGroup;
    forall i | 0 <= i < |s| ensures Headed(s, i, top) <==> FirstOwn(s, i, top) && Switches(s[i]) {
      if s[i].cluster == Some(top) && Switches(s[i]) {
        HeaderExactly(s, i, top);
        ShownSwitch(s[i]);
      }
    }
  }

  lemma ShownSwitch(e: Entry)
    requires Switches(e)
    ensures Shown(e)
  {
  }

  // ---- headers twice, and not at all ----

  /** An entry with one short option. */
  function Letter(key: int, group: int, c: Cluster): Entry {
    Entry([Opt(None, key, false, false, false, false, false, true, group)], [key], group, Some(c))
  }

  /** A line of documentation that heads a group. */
  function Heading(group: int, c: Cluster): Entry {
    Entry([Opt(None, 0, false, false, false, false, false, true, group)], [], group, Some(c))
  }

  /**
   Two children without a header, each with a first child that has one: these grandchildren's
   clusters have the same places, and the first one's header is printed twice.
   */
  lemma HeaderTwice(a: Argp)
    ensures var child := Child(a, true, 0); var x, y := Cluster([0, 0], 0, 0, None), Cluster([1, 0], 0, 0, None);
      && ArgpHol.ChildCluster(child, [0], 0, None) == Some(x) && ArgpHol.ChildCluster(child, [1], 0, None) == Some(y)
      && var s := [Letter(97, 0, x), Letter(98, 0, y), Letter(99, 0, x)];
      Sorted(s) && Headed(s, 0, x) && Headed(s, 2, x)
  {
    var x, y := Cluster([0, 0], 0, 0, None), Cluster([1, 0], 0, 0, None);
    assert [0] + [0] == [0, 0] && [1] + [0] == [1, 0];
    LetterFacts(97, 0, x);
    LetterFacts(98, 0, y);
    LetterFacts(99, 0, x);
    hide Letter, EntryCmp, ShortOf, LongOf, FirstLong, IsDoc;
    var e, f, g := Letter(97, 0, x), Letter(98, 0, y), Letter(99, 0, x);
    LettersSorted(e, f, 97, 98, x, y);
    LettersSorted(e, g, 97, 99, x, x);
    LettersSorted(f, g, 98, 99, y, x);
    ThreeSorted(e, f, g);
    ThreeHeaded(e, f, g, x, y);
  }

  lemma ThreeSorted(e: Entry, f: Entry, g: Entry)
    requires EntryCmp(e, f) <= 0 && EntryCmp(e, g) <= 0 && EntryCmp(f, g) <= 0
    ensures Sorted([e, f, g])
  {
    hide EntryCmp;
  }

  /** An entry of another cluster between two of one: the header comes before both. */
  lemma ThreeHeaded(e: Entry, f: Entry, g: Entry, x: Cluster, y: Cluster)
    requires Switches(e) && Switches(f) && Switches(g) && x != y && y.parent.None?
    requires e.cluster == g.cluster == Some(x) && f.cluster == Some(y)
    ensures Headed([e, f, g], 0, x) && Headed([e, f, g], 2, x)
  {
    var s := [e, f, g];
    ShownSwitch(f);
    hide Switches, HeadsGroup;
    assert s[1] == f && Before(s, 2) == Some(1) && Before(s, 0) == None;
    assert !Under(f, x);
  }

  /** Letters are in order whatever clusters with the same places they are in. */
  lemma LettersSorted(e: Entry, f: Entry, k: int, l: int, c: Cluster, d: Cluster)
    requires 97 <= k <= l <= 122 && ShortOf(e) == k && ShortOf(f) == l && FirstLong(e.opts).None? && FirstLong(f.opts).None?
    requires !IsDoc(e) && !IsDoc(f) && e.group == f.group && e.cluster == Some(c) && f.cluster == Some(d)
    requires c.parent == d.parent == None && c.group == d.group && c.index == d.index
    ensures EntryCmp(e, f) <= 0
  {
    assert CousinCmp(c, d) == 0;
    hide ShortOf, FirstLong, IsDoc, CousinCmp;
  }

  lemma LetterFacts(key: int, group: int, c: Cluster)
    requires 97 <= key <= 122
    ensures var e := Letter(key, group, c);
      && ShortOf(e) == key && FirstLong(e.opts).None? && !IsDoc(e) && e.group == group && e.cluster == Some(c) && e.opts != []
  {
  }

  lemma HeadingFacts(group: int, c: Cluster)
    ensures var e := Heading(group, c);
      && ShortOf(e) == 0 && FirstLong(e.opts).None? && !IsDoc(e) && e.group == group && e.cluster == Some(c)
      && e.opts != [] && !IsShort(e.opts[0]) && e.opts[0].name.None?
  {
    var e := Heading(group, c);
    assert e.opts[1..] == [];
    assert FirstLong([]) == None && FirstShort([], []) == 0;
  }

  /** A cluster whose first line heads a group: its own header is not printed at all. */
  lemma HeaderNever(c: Cluster)
    ensures var s := [Heading(0, c), Letter(97, 1, c)];
      Sorted(s) && (forall i :: 0 <= i < |s| ==> Shown(s[i]) && !Headed(s, i, c))
  {
    var s := [Heading(0, c), Letter(97, 1, c)];
    LetterFacts(97, 1, c);
    SelfCmp(c);
    HeadingFacts(0, c);
    hide Letter, Heading, ShortOf, LongOf, FirstLong, IsDoc, IsShort;
    assert Before(s, 1) == Some(0) && Before(s, 0) == None;
  }
}
