/** Where the help entries of a tree belong: the options of each, its group, and its cluster. */
module ArgpNesting {
  import opened Options
  import opened ArgpTypes
  import opened ArgpOrder
  import opened ArgpHol

  // ---- one parser's list ----

  function AllOpts(es: seq<HolEntry>): seq<Opt> {
    if es == [] then [] else es[0].opts + AllOpts(es[1..])
  }

  /** An option and the aliases behind it. */
  predicate IsRun(opts: seq<Opt>) {
    opts != [] && forall i :: 0 < i < |opts| ==> opts[i].alias
  }

  /** An option with a group has that one; a heading opens the next; any other stays in the last. */
  predicate Numbered(o: Opt, before: int, group: int) {
    && (o.group != 0 ==> group == o.group)
    && (o.group == 0 && o.name.None? && o.key == 0 ==> group == before + 1)
    && (o.group == 0 && (o.name.Some? || o.key != 0) ==> group == before)
  }

  predicate EntryOk(es: seq<HolEntry>, k: nat, path: Path, cluster: Option<Cluster>, cur: int)
    requires k < |es|
  {
    && es[k].owner == path && es[k].cluster == cluster && IsRun(es[k].opts)
    && (k > 0 ==> !es[k].opts[0].alias)
    && Numbered(es[k].opts[0], if k == 0 then cur else es[k - 1].group, es[k].group)
  }

  lemma {:induction false} RunIs(opts: seq<Opt>)
    ensures forall i :: 0 <= i < AliasRun(opts) ==> opts[i].alias
    ensures AliasRun(opts) < |opts| ==> !opts[AliasRun(opts)].alias
    decreases |opts|
  {
    if opts != [] && opts[0].alias {
      RunIs(opts[1..]);
      assert forall i :: 0 < i < |opts| ==> opts[i] == opts[1..][i - 1];
    }
  }

  lemma FirstRun(opts: seq<Opt>)
    requires opts != []
    ensures var n := 1 + AliasRun(opts[1..]); IsRun(opts[..n]) && (n < |opts| ==> !opts[n].alias)
  {
    RunIs(opts[1..]);
    hide AliasRun;
    assert forall i :: 0 < i < |opts| ==> opts[i] == opts[1..][i - 1];
  }

  /**
   A parser's entries are its options cut before each one that is not an alias, in order, with
   the groups numbered through.
   */
  lemma {:induction false} ListIs(path: Path, opts: seq<Opt>, cluster: Option<Cluster>, cur: int, shorts: seq<int>)
    ensures var es := MakeFrom(path, opts, cluster, cur, shorts).entries;
      && AllOpts(es) == opts && (es == [] <==> opts == [])
      && forall k :: 0 <= k < |es| ==> EntryOk(es, k, path, cluster, cur)
    decreases |opts|
  {
    if opts != [] {
      var n, g := 1 + AliasRun(opts[1..]), NextGroup(opts[0], cur);
      var more := shorts + Fresh(opts[..n], Keys(shorts));
      var e, rest := HolEntry(path, opts[..n], |shorts|, g, cluster), MakeFrom(path, opts[n..], cluster, g, more).entries;
      MakeCons(path, opts, cluster, cur, shorts);
      FirstRun(opts);
      assert Numbered(opts[0], cur, g);
      hide NextGroup, MakeFrom, Fresh, Keys, AliasRun;
      ListIs(path, opts[n..], cluster, g, more);
      Cons(e, rest, path, opts, n, cluster, cur);
    }
  }

  lemma Cons(e: HolEntry, rest: seq<HolEntry>, path: Path, opts: seq<Opt>, n: nat, cluster: Option<Cluster>, cur: int)
    requires 0 < n <= |opts| && e.opts == opts[..n] && e.owner == path && e.cluster == cluster && IsRun(e.opts)
    requires Numbered(opts[0], cur, e.group) && (n < |opts| ==> !opts[n].alias)
    requires AllOpts(rest) == opts[n..] && (rest == [] <==> opts[n..] == [])
    requires forall k :: 0 <= k < |rest| ==> EntryOk(rest, k, path, cluster, e.group)
    ensures var es := [e] + rest;
      AllOpts(es) == opts && forall k :: 0 <= k < |es| ==> EntryOk(es, k, path, cluster, cur)
  {
    var es := [e] + rest;
    assert es[1..] == rest && opts[..n] + opts[n..] == opts;
    if rest != [] {
      assert EntryOk(rest, 0, path, cluster, e.group);
      assert AllOpts(rest) == rest[0].opts + AllOpts(rest[1..]);
      assert opts[n..][0] == rest[0].opts[0];
    }
    hide AllOpts, Numbered, IsRun;
    forall k | 0 <= k < |es| ensures EntryOk(es, k, path, cluster, cur) {
      if k > 0 {
        assert EntryOk(rest, k - 1, path, cluster, e.group);
        assert k > 1 ==> es[k - 1] == rest[k - 2];
      }
    }
  }

  // ---- clusters in a tree ----

  /**
   The cluster in force at a place below `a`: each child on the way with a group or a header
   opens one inside the last, at its position; None if there is no such place.
   */
  function Along(a: Argp, path: Path, rest: Path, cluster: Option<Cluster>): Option<Option<Cluster>>
    decreases |rest|
  {
    if rest == [] then Some(cluster)
    else if rest[0] >= |a.children| then None
    else
      var c, i := a.children[rest[0]], rest[0];
      var opens := c.header || c.group != 0;
      Along(c.argp, path + [i], rest[1..], if opens then Some(Cluster(path + [i], c.group, i, cluster)) else cluster)
  }

  ghost predicate Placed(a: Argp, path: Path, cluster: Option<Cluster>, e: HolEntry) {
    exists rest :: PlacedBy(a, path, cluster, e, rest)
  }

  predicate PlacedBy(a: Argp, path: Path, cluster: Option<Cluster>, e: HolEntry, rest: Path) {
    e.owner == path + rest && Along(a, path, rest, cluster) == Some(e.cluster)
  }

  ghost predicate AllPlaced(a: Argp, path: Path, cluster: Option<Cluster>, es: seq<HolEntry>) {
    forall k :: 0 <= k < |es| ==> Placed(a, path, cluster, es[k])
  }

  /** Appending moves stretches of the string and nothing else. */
  lemma {:induction false} AppendFromKeeps(shadowed: set<int>, more: seq<HolEntry>, so: seq<int>, shorts: seq<int>)
    ensures var es := AppendFrom(shadowed, more, so, shorts).entries;
      |es| == |more| && forall k :: 0 <= k < |more| ==> es[k] == more[k].(so := es[k].so)
    decreases |more|
  {
    if more != [] {
      var (kept, left) := Walk(shadowed, more[0].opts, so);
      AppendFromKeeps(shadowed, more[1..], left, shorts + kept);
    }
  }

  lemma AppendKeeps(h: Hol, more: Hol)
    ensures var es := Append(h, more).entries; var all := h.entries + more.entries;
      |es| == |all| && forall k :: 0 <= k < |all| ==> es[k] == all[k].(so := es[k].so)
  {
    AppendFromKeeps(Keys(h.shorts), more.entries, more.shorts, h.shorts);
    hide AppendFrom, Keys;
  }

  lemma AppendPlaced(a: Argp, path: Path, cluster: Option<Cluster>, h: Hol, more: Hol)
    requires AllPlaced(a, path, cluster, h.entries) && AllPlaced(a, path, cluster, more.entries)
    ensures AllPlaced(a, path, cluster, Append(h, more).entries)
  {
    AppendKeeps(h, more);
    var es, all := Append(h, more).entries, h.entries + more.entries;
    hide Append, Along;
    forall k | 0 <= k < |es| ensures Placed(a, path, cluster, es[k]) {
      assert Placed(a, path, cluster, all[k]);
      var rest :| PlacedBy(a, path, cluster, all[k], rest);
      assert PlacedBy(a, path, cluster, es[k], rest);
    }
  }

  lemma ChildStep(a: Argp, path: Path, cluster: Option<Cluster>, i: nat, e: HolEntry)
    requires i < |a.children|
    requires var c := a.children[i]; Placed(c.argp, path + [i], ChildCluster(c, path, i, cluster), e)
    ensures Placed(a, path, cluster, e)
  {
    var c := a.children[i];
    var rest :| PlacedBy(c.argp, path + [i], ChildCluster(c, path, i, cluster), e, rest);
    assert ([i] + rest)[1..] == rest && path + [i] + rest == path + ([i] + rest);
    assert PlacedBy(a, path, cluster, e, [i] + rest);
  }

  /**
   Every help entry of a tree is in the cluster in force at its parser's place: the children on
   the way that have a group or a header, one inside the other.
   */
  lemma {:induction false} TreePlaced(a: Argp, path: Path, cluster: Option<Cluster>)
    ensures AllPlaced(a, path, cluster, TreeHol(a, path, cluster).entries)
    decreases a, 0
  {
    var own := MakeFrom(path, OptionsOf(a), cluster, 0, []);
    ListIs(path, OptionsOf(a), cluster, 0, []);
    assert path + [] == path;
    forall k | 0 <= k < |own.entries| ensures Placed(a, path, cluster, own.entries[k]) {
      assert EntryOk(own.entries, k, path, cluster, 0);
      assert PlacedBy(a, path, cluster, own.entries[k], []);
    }
    assert a.children[0..] == a.children;
    hide MakeFrom, AllPlaced;
    ChildrenPlaced(a, a.children, path, cluster, own, 0);
  }

  lemma {:induction false} ChildrenPlaced(a: Argp, cs: seq<Child>, path: Path, cluster: Option<Cluster>, h: Hol, i: nat)
    requires i <= |a.children| && cs == a.children[i..] && AllPlaced(a, path, cluster, h.entries)
    ensures AllPlaced(a, path, cluster, AddChildren(h, cs, path, i, cluster).entries)
    decreases cs, 0
  {
    if cs != [] {
      var more := ChildHol(cs[0], path, i, cluster);
      ChildPlaced(cs[0], path, i, cluster);
      assert cs[0] == a.children[i] && cs[1..] == a.children[i + 1..];
      hide ChildHol, ChildCluster;
      forall k | 0 <= k < |more.entries| ensures Placed(a, path, cluster, more.entries[k]) {
        ChildStep(a, path, cluster, i, more.entries[k]);
      }
      AppendPlaced(a, path, cluster, h, more);
      hide AllPlaced, Append;
      ChildrenPlaced(a, cs[1..], path, cluster, Append(h, more), i + 1);
    }
  }

  lemma {:induction false} ChildPlaced(c: Child, path: Path, i: nat, cluster: Option<Cluster>)
    ensures AllPlaced(c.argp, path + [i], ChildCluster(c, path, i, cluster), ChildHol(c, path, i, cluster).entries)
    decreases c, 0
  {
    TreePlaced(c.argp, path + [i], ChildCluster(c, path, i, cluster));
  }
}
