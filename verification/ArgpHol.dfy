/**
 Building the list of help entries from a tree of parsers. Each entry owns a stretch of one
 string of short options; an option shadowed by an earlier one is left out of it.
 */
module ArgpHol {
  import opened Options
  import opened ArgpTypes
  import opened ArgpOrder

  /** A parser's place in the tree: the child positions from the root. */
  type Path = seq<nat>

  /** An option with its aliases; `so` is where its stretch of the string starts. */
  datatype HolEntry = HolEntry(owner: Path, opts: seq<Opt>, so: nat, group: int, cluster: Option<Cluster>)

  datatype Hol = Hol(entries: seq<HolEntry>, shorts: seq<int>)

  const NO_HOL := Hol([], [])

  // ---- what is built ----

  function Keys(s: seq<int>): set<int> {
    set c | c in s
  }

  /** The short keys of an option run that are not claimed yet, in order, each once. */
  function Fresh(opts: seq<Opt>, claimed: set<int>): seq<int> {
    if opts == [] then []
    else if IsShort(opts[0]) && opts[0].key !in claimed then
      [opts[0].key] + Fresh(opts[1..], claimed + {opts[0].key})
    else Fresh(opts[1..], claimed)
  }

  function AliasRun(opts: seq<Opt>): (n: nat)
    ensures n <= |opts|
  {
    if opts == [] || !opts[0].alias then 0 else 1 + AliasRun(opts[1..])
  }

  function NextGroup(o: Opt, cur: int): int {
    if o.group != 0 then o.group
    else if o.name.None? && o.key == 0 then cur + 1
    else cur
  }

  /** `make_hol` from an option on, with the string so far. */
  function MakeFrom(path: Path, opts: seq<Opt>, cluster: Option<Cluster>, cur: int, shorts: seq<int>): Hol
    decreases |opts|
  {
    if opts == [] then Hol([], shorts)
    else
      var n := 1 + AliasRun(opts[1..]);
      var g := NextGroup(opts[0], cur);
      var rest := MakeFrom(path, opts[n..], cluster, g, shorts + Fresh(opts[..n], Keys(shorts)));
      Hol([HolEntry(path, opts[..n], |shorts|, g, cluster)] + rest.entries, rest.shorts)
  }

  /** Walk an entry's options along the string they were claimed in: what is not shadowed, and what is left. */
  function Walk(shadowed: set<int>, opts: seq<Opt>, so: seq<int>): (seq<int>, seq<int>) {
    if opts == [] then ([], so)
    else if IsShort(opts[0]) && so != [] && so[0] == opts[0].key then
      var (kept, left) := Walk(shadowed, opts[1..], so[1..]);
      (if so[0] in shadowed then kept else [so[0]] + kept, left)
    else Walk(shadowed, opts[1..], so)
  }

  function AppendFrom(shadowed: set<int>, more: seq<HolEntry>, so: seq<int>, shorts: seq<int>): Hol {
    if more == [] then Hol([], shorts)
    else
      var (kept, left) := Walk(shadowed, more[0].opts, so);
      var rest := AppendFrom(shadowed, more[1..], left, shorts + kept);
      Hol([more[0].(so := |shorts|)] + rest.entries, rest.shorts)
  }

  /** `hol_append`. */
  function Append(h: Hol, more: Hol): Hol {
    if more.entries == [] then h
    else if h.entries == [] then more
    else
      var r := AppendFrom(Keys(h.shorts), more.entries, more.shorts, h.shorts);
      Hol(h.entries + r.entries, r.shorts)
  }

  function ChildCluster(child: Child, path: Path, i: nat, cluster: Option<Cluster>): Option<Cluster> {
    if child.group != 0 || child.header then Some(Cluster(path + [i], child.group, i, cluster)) else cluster
  }

  /** `argp_hol`. */
  function TreeHol(a: Argp, path: Path, cluster: Option<Cluster>): Hol
    decreases a, 0
  {
    AddChildren(MakeFrom(path, OptionsOf(a), cluster, 0, []), a.children, path, 0, cluster)
  }

  function AddChildren(h: Hol, cs: seq<Child>, path: Path, i: nat, cluster: Option<Cluster>): Hol
    decreases cs, 0
  {
    if cs == [] then h
    else
      AddChildren(Append(h, ChildHol(cs[0], path, i, cluster)), cs[1..], path, i + 1, cluster)
  }

  function ChildHol(child: Child, path: Path, i: nat, cluster: Option<Cluster>): Hol
    decreases child, 0
  {
    TreeHol(child.argp, path + [i], ChildCluster(child, path, i, cluster))
  }

  // ---- every stretch holds what its entry is the first to declare ----

  /** From `entries` on, starting with `claimed`, the string grows by what each entry claims. */
  predicate StretchesFrom(entries: seq<HolEntry>, claimed: seq<int>, shorts: seq<int>) {
    if entries == [] then shorts == claimed
    else
      && entries[0].so == |claimed|
      && StretchesFrom(entries[1..], claimed + Fresh(entries[0].opts, Keys(claimed)), shorts)
  }

  predicate HolOk(h: Hol) {
    StretchesFrom(h.entries, [], h.shorts)
  }

  predicate NoDup(s: seq<int>) {
    forall i, j :: 0 <= i < j < |s| ==> s[i] != s[j]
  }

  lemma KeysAppend(a: seq<int>, b: seq<int>)
    ensures Keys(a + b) == Keys(a) + Keys(b)
  {
    assert forall c :: c in a + b <==> c in a || c in b;
  }

  lemma {:induction false} FreshKeys(opts: seq<Opt>, claimed: set<int>)
    ensures NoDup(Fresh(opts, claimed)) && Keys(Fresh(opts, claimed)) !! claimed
    ensures forall c :: c in Fresh(opts, claimed) <==> c !in claimed && exists i :: 0 <= i < |opts| && IsShort(opts[i]) && opts[i].key == c
    decreases |opts|
  {
    if opts != [] {
      var o, rest := opts[0], opts[1..];
      assert opts == [o] + rest;
      if IsShort(o) && o.key !in claimed {
        FreshKeys(rest, claimed + {o.key});
      } else {
        FreshKeys(rest, claimed);
      }
      assert forall i :: 1 <= i < |opts| ==> opts[i] == rest[i - 1];
      assert forall i :: 0 <= i < |rest| ==> rest[i] == opts[i + 1];
    }
  }

  lemma NoDupAppend(a: seq<int>, b: seq<int>)
    requires NoDup(a) && NoDup(b) && Keys(a) !! Keys(b)
    ensures NoDup(a + b)
  {
    forall i, j | 0 <= i < j < |a + b| ensures (a + b)[i] != (a + b)[j] {
      if i < |a| <= j {
        assert a[i] in Keys(a) && b[j - |a|] in Keys(b);
      }
    }
  }

  lemma {:induction false} StretchesGrow(entries: seq<HolEntry>, claimed: seq<int>, shorts: seq<int>)
    requires StretchesFrom(entries, claimed, shorts) && NoDup(claimed)
    ensures claimed <= shorts && NoDup(shorts)
    decreases |entries|
  {
    if entries != [] {
      FreshKeys(entries[0].opts, Keys(claimed));
      NoDupAppend(claimed, Fresh(entries[0].opts, Keys(claimed)));
      StretchesGrow(entries[1..], claimed + Fresh(entries[0].opts, Keys(claimed)), shorts);
    }
  }

  lemma {:induction false} MakeOk(path: Path, opts: seq<Opt>, cluster: Option<Cluster>, cur: int, shorts: seq<int>)
    ensures var h := MakeFrom(path, opts, cluster, cur, shorts); StretchesFrom(h.entries, shorts, h.shorts)
    decreases |opts|
  {
    if opts != [] {
      var n := 1 + AliasRun(opts[1..]);
      MakeOk(path, opts[n..], cluster, NextGroup(opts[0], cur), shorts + Fresh(opts[..n], Keys(shorts)));
    }
  }

  /**
   Walking an entry along its own stretch finds exactly the options it claimed: a shadowed
   option never matches by accident, because no character occurs twice.
   */
  lemma {:induction false} WalkFresh(shadowed: set<int>, opts: seq<Opt>, claimed: seq<int>, so: seq<int>)
    requires NoDup(claimed + so) && Fresh(opts, Keys(claimed)) <= so
    ensures Walk(shadowed, opts, so)
         == (Fresh(opts, shadowed + Keys(claimed)), so[|Fresh(opts, Keys(claimed))|..])
    decreases |opts|
  {
    if opts != [] {
      var o, rest := opts[0], opts[1..];
      if IsShort(o) && o.key !in claimed {
        KeysAppend(claimed, [o.key]);
        assert Keys([o.key]) == {o.key};
        assert claimed + so == (claimed + [o.key]) + so[1..];
        var mine := Fresh(rest, Keys(claimed) + {o.key});
        assert Fresh(opts, Keys(claimed)) == [o.key] + mine;
        assert so[0] == o.key && mine <= so[1..] && so[1..][|mine|..] == so[1 + |mine|..];
        WalkFresh(shadowed, rest, claimed + [o.key], so[1..]);
        assert shadowed + Keys(claimed + [o.key]) == (shadowed + Keys(claimed)) + {o.key};
        if o.key in shadowed {
          assert (shadowed + Keys(claimed)) + {o.key} == shadowed + Keys(claimed);
        }
      } else {
        if IsShort(o) && so != [] {
          var i :| 0 <= i < |claimed| && claimed[i] == o.key;
          assert (claimed + so)[i] == o.key && (claimed + so)[|claimed|] == so[0];
        }
        WalkFresh(shadowed, rest, claimed, so);
      }
    }
  }

  lemma {:induction false} AppendFromOk(shadowed: set<int>, more: seq<HolEntry>, claimed: seq<int>, so: seq<int>, shorts: seq<int>)
    requires StretchesFrom(more, claimed, claimed + so) && NoDup(claimed + so)
    requires Keys(shorts) == shadowed + Keys(claimed)
    ensures var r := AppendFrom(shadowed, more, so, shorts); StretchesFrom(r.entries, shorts, r.shorts)
    decreases |more|
  {
    if more != [] {
      var mine := Fresh(more[0].opts, Keys(claimed));
      assert NoDup(claimed) by { assert forall i :: 0 <= i < |claimed| ==> claimed[i] == (claimed + so)[i]; }
      FreshKeys(more[0].opts, Keys(claimed));
      NoDupAppend(claimed, mine);
      StretchesGrow(more[1..], claimed + mine, claimed + so);
      assert mine <= so by { assert (claimed + mine)[|claimed|..] == mine && (claimed + so)[|claimed|..] == so; }
      WalkFresh(shadowed, more[0].opts, claimed, so);
      var (kept, left) := Walk(shadowed, more[0].opts, so);
      assert claimed + so == (claimed + mine) + left;
      KeysAppend(shorts, kept);
      KeysAppend(claimed, mine);
      FreshShadowed(more[0].opts, shadowed, Keys(claimed));
      AppendFromOk(shadowed, more[1..], claimed + mine, left, shorts + kept);
    }
  }

  /** Shadowing removes keys from what is fresh, nothing else. */
  lemma {:induction false} FreshShadowed(opts: seq<Opt>, shadowed: set<int>, claimed: set<int>)
    ensures shadowed + claimed + Keys(Fresh(opts, shadowed + claimed)) == shadowed + (claimed + Keys(Fresh(opts, claimed)))
  {
    FreshKeys(opts, shadowed + claimed);
    FreshKeys(opts, claimed);
  }

  lemma {:induction false} StretchesSplit(es: seq<HolEntry>, fs: seq<HolEntry>, claimed: seq<int>, mid: seq<int>, shorts: seq<int>)
    requires StretchesFrom(es, claimed, mid) && StretchesFrom(fs, mid, shorts)
    ensures StretchesFrom(es + fs, claimed, shorts)
    decreases |es|
  {
    if es == [] {
      assert es + fs == fs;
    } else {
      StretchesSplit(es[1..], fs, claimed + Fresh(es[0].opts, Keys(claimed)), mid, shorts);
      assert (es + fs)[1..] == es[1..] + fs;
    }
  }

  /** `hol_append` keeps every stretch right. */
  lemma AppendOk(h: Hol, more: Hol)
    requires HolOk(h) && HolOk(more)
    ensures HolOk(Append(h, more))
  {
    if h.entries != [] && more.entries != [] {
      StretchesGrow(more.entries, [], more.shorts);
      assert [] + more.shorts == more.shorts;
      AppendFromOk(Keys(h.shorts), more.entries, [], more.shorts, h.shorts);
      var r := AppendFrom(Keys(h.shorts), more.entries, more.shorts, h.shorts);
      StretchesSplit(h.entries, r.entries, [], h.shorts, r.shorts);
    }
  }

  lemma {:induction false} TreeOk(a: Argp, path: Path, cluster: Option<Cluster>)
    ensures HolOk(TreeHol(a, path, cluster))
    decreases a, 0
  {
    MakeOk(path, OptionsOf(a), cluster, 0, []);
    AddChildrenOk(MakeFrom(path, OptionsOf(a), cluster, 0, []), a.children, path, 0, cluster);
  }

  lemma {:induction false} AddChildrenOk(h: Hol, cs: seq<Child>, path: Path, i: nat, cluster: Option<Cluster>)
    requires HolOk(h)
    ensures HolOk(AddChildren(h, cs, path, i, cluster))
    decreases cs, 0
  {
    if cs != [] {
      ChildOk(cs[0], path, i, cluster);
      AppendOk(h, ChildHol(cs[0], path, i, cluster));
      AddChildrenOk(Append(h, ChildHol(cs[0], path, i, cluster)), cs[1..], path, i + 1, cluster);
    }
  }

  lemma {:induction false} ChildOk(child: Child, path: Path, i: nat, cluster: Option<Cluster>)
    ensures HolOk(ChildHol(child, path, i, cluster))
    decreases child, 0
  {
    TreeOk(child.argp, path + [i], ChildCluster(child, path, i, cluster));
  }

  // ---- who declares what ----

  /** The short keys a parser's options declare, with the parser. */
  function Declares(path: Path, opts: seq<Opt>): seq<(Path, int)> {
    if opts == [] then []
    else (if IsShort(opts[0]) then [(path, opts[0].key)] else []) + Declares(path, opts[1..])
  }

  /** The same over a whole tree: a parser's own options, then its children's in order. */
  function TreeDeclares(a: Argp, path: Path): seq<(Path, int)>
    decreases a, 0
  {
    Declares(path, OptionsOf(a)) + ChildrenDeclare(a.children, path, 0)
  }

  function ChildrenDeclare(cs: seq<Child>, path: Path, i: nat): seq<(Path, int)>
    decreases cs, 0
  {
    if cs == [] then [] else ChildDeclares(cs[0], path, i) + ChildrenDeclare(cs[1..], path, i + 1)
  }

  function ChildDeclares(child: Child, path: Path, i: nat): seq<(Path, int)>
    decreases child, 0
  {
    TreeDeclares(child.argp, path + [i])
  }

  /** The same over a list of entries. */
  function EntriesDeclare(es: seq<HolEntry>): seq<(Path, int)> {
    if es == [] then [] else Declares(es[0].owner, es[0].opts) + EntriesDeclare(es[1..])
  }

  lemma {:induction false} EntryDeclares(e: HolEntry, rest: seq<HolEntry>)
    ensures EntriesDeclare([e] + rest) == Declares(e.owner, e.opts) + EntriesDeclare(rest)
  {
    hide Declares;
    assert ([e] + rest)[1..] == rest;
  }

  lemma {:induction false} DeclaresAppend(path: Path, a: seq<Opt>, b: seq<Opt>)
    ensures Declares(path, a + b) == Declares(path, a) + Declares(path, b)
    decreases |a|
  {
    if a == [] {
      assert a + b == b;
    } else {
      DeclaresAppend(path, a[1..], b);
      assert (a + b)[0] == a[0] && (a + b)[1..] == a[1..] + b;
      var head := if IsShort(a[0]) then [(path, a[0].key)] else [];
      assert Declares(path, a + b) == head + Declares(path, a[1..] + b);
      hide Declares;
      assert head + (Declares(path, a[1..]) + Declares(path, b)) == (head + Declares(path, a[1..])) + Declares(path, b);
    }
  }

  lemma {:induction false} EntriesAppend(es: seq<HolEntry>, fs: seq<HolEntry>)
    ensures EntriesDeclare(es + fs) == EntriesDeclare(es) + EntriesDeclare(fs)
    decreases |es|
  {
    if es == [] {
      assert es + fs == fs;
    } else {
      EntriesAppend(es[1..], fs);
      assert (es + fs)[1..] == es[1..] + fs;
    }
  }

  lemma {:induction false} MakeCons(path: Path, opts: seq<Opt>, cluster: Option<Cluster>, cur: int, shorts: seq<int>)
    requires opts != []
    ensures var n, g := 1 + AliasRun(opts[1..]), NextGroup(opts[0], cur);
      var rest := MakeFrom(path, opts[n..], cluster, g, shorts + Fresh(opts[..n], Keys(shorts)));
      MakeFrom(path, opts, cluster, cur, shorts).entries == [HolEntry(path, opts[..n], |shorts|, g, cluster)] + rest.entries
  {
    hide Fresh, Keys, AliasRun, NextGroup;
  }

  lemma {:induction false} MakeDeclares(path: Path, opts: seq<Opt>, cluster: Option<Cluster>, cur: int, shorts: seq<int>)
    ensures EntriesDeclare(MakeFrom(path, opts, cluster, cur, shorts).entries) == Declares(path, opts)
    decreases |opts|
  {
    hide *;
    if opts == [] {
      MakeNone(path, cluster, cur, shorts);
    } else {
      var n, g := 1 + AliasRun(opts[1..]), NextGroup(opts[0], cur);
      var front, back := opts[..n], opts[n..];
      var more := shorts + Fresh(front, Keys(shorts));
      MakeCons(path, opts, cluster, cur, shorts);
      EntryDeclares(HolEntry(path, front, |shorts|, g, cluster), MakeFrom(path, back, cluster, g, more).entries);
      MakeDeclares(path, back, cluster, g, more);
      DeclaresAppend(path, front, back);
      assert opts == front + back;
    }
  }

  lemma MakeNone(path: Path, cluster: Option<Cluster>, cur: int, shorts: seq<int>)
    ensures EntriesDeclare(MakeFrom(path, [], cluster, cur, shorts).entries) == [] == Declares(path, [])
  {
  }

  lemma {:induction false} AppendFromDeclares(shadowed: set<int>, more: seq<HolEntry>, so: seq<int>, shorts: seq<int>)
    ensures EntriesDeclare(AppendFrom(shadowed, more, so, shorts).entries) == EntriesDeclare(more)
    decreases |more|
  {
    if more != [] {
      var (kept, left) := Walk(shadowed, more[0].opts, so);
      AppendFromDeclares(shadowed, more[1..], left, shorts + kept);
      var rest := AppendFrom(shadowed, more[1..], left, shorts + kept);
      assert ([more[0].(so := |shorts|)] + rest.entries)[1..] == rest.entries;
    }
  }

  lemma AppendDeclares(h: Hol, more: Hol)
    ensures EntriesDeclare(Append(h, more).entries) == EntriesDeclare(h.entries) + EntriesDeclare(more.entries)
  {
    AppendFromDeclares(Keys(h.shorts), more.entries, more.shorts, h.shorts);
    EntriesAppend(h.entries, AppendFrom(Keys(h.shorts), more.entries, more.shorts, h.shorts).entries);
  }

  lemma {:induction false} TreeHolDeclares(a: Argp, path: Path, cluster: Option<Cluster>)
    ensures EntriesDeclare(TreeHol(a, path, cluster).entries) == TreeDeclares(a, path)
    decreases a, 0
  {
    var h := MakeFrom(path, OptionsOf(a), cluster, 0, []);
    MakeDeclares(path, OptionsOf(a), cluster, 0, []);
    AddChildrenDeclares(h, a.children, path, 0, cluster);
  }

  lemma {:induction false} AddChildrenDeclares(h: Hol, cs: seq<Child>, path: Path, i: nat, cluster: Option<Cluster>)
    ensures EntriesDeclare(AddChildren(h, cs, path, i, cluster).entries)
         == EntriesDeclare(h.entries) + ChildrenDeclare(cs, path, i)
    decreases cs, 0
  {
    if cs != [] {
      var more := ChildHol(cs[0], path, i, cluster);
      ChildHolDeclares(cs[0], path, i, cluster);
      AppendDeclares(h, more);
      AddChildrenDeclares(Append(h, more), cs[1..], path, i + 1, cluster);
    }
  }

  lemma {:induction false} ChildHolDeclares(child: Child, path: Path, i: nat, cluster: Option<Cluster>)
    ensures EntriesDeclare(ChildHol(child, path, i, cluster).entries) == ChildDeclares(child, path, i)
    decreases child, 0
  {
    TreeHolDeclares(child.argp, path + [i], ChildCluster(child, path, i, cluster));
  }

  // ---- the entry that owns a key ----

  /** The parser whose declaration of `c` comes first. */
  function FirstOwner(ds: seq<(Path, int)>, c: int): Option<Path> {
    if ds == [] then None
    else if ds[0].1 == c then Some(ds[0].0)
    else FirstOwner(ds[1..], c)
  }

  /** The keys `hol_entry_short_iterate` reaches for an entry. */
  function Reached(h: Hol, i: nat): seq<int>
    requires i < |h.entries| && h.entries[i].so <= |h.shorts|
  {
    Walk({}, h.entries[i].opts, h.shorts[h.entries[i].so..]).0
  }

  lemma {:induction false} FirstOwnerAppend(a: seq<(Path, int)>, b: seq<(Path, int)>, c: int)
    ensures FirstOwner(a + b, c) == if FirstOwner(a, c).Some? then FirstOwner(a, c) else FirstOwner(b, c)
    decreases |a|
  {
    if a == [] {
      assert a + b == b;
    } else {
      FirstOwnerAppend(a[1..], b, c);
      assert (a + b)[1..] == a[1..] + b;
    }
  }

  lemma {:induction false} DeclaresOwner(path: Path, opts: seq<Opt>, c: int)
    ensures FirstOwner(Declares(path, opts), c)
         == if exists i :: 0 <= i < |opts| && IsShort(opts[i]) && opts[i].key == c then Some(path) else None
    decreases |opts|
  {
    if opts != [] {
      var o, rest := opts[0], opts[1..];
      DeclaresOwner(path, rest, c);
      FirstOwnerAppend(if IsShort(o) then [(path, o.key)] else [], Declares(path, rest), c);
      assert [(path, o.key)][1..] == [];
      assert forall i :: 1 <= i < |opts| ==> opts[i] == rest[i - 1];
      assert forall i :: 0 <= i < |rest| ==> rest[i] == opts[i + 1];
    }
  }

  /** What the i-th entry of a run of stretches claims, and where. */
  lemma {:induction false} StretchAt(es: seq<HolEntry>, claimed: seq<int>, shorts: seq<int>, i: nat) returns (before: seq<int>)
    requires StretchesFrom(es, claimed, shorts) && NoDup(claimed) && i < |es|
    ensures NoDup(shorts) && before <= shorts && es[i].so == |before| && before + Fresh(es[i].opts, Keys(before)) <= shorts
    ensures forall c :: c in before <==> c in claimed || FirstOwner(EntriesDeclare(es[..i]), c).Some?
    decreases |es|
  {
    StretchesGrow(es, claimed, shorts);
    var mine := Fresh(es[0].opts, Keys(claimed));
    FreshKeys(es[0].opts, Keys(claimed));
    NoDupAppend(claimed, mine);
    StretchesGrow(es[1..], claimed + mine, shorts);
    if i == 0 {
      before := claimed;
      assert es[..0] == [];
    } else {
      before := StretchAt(es[1..], claimed + mine, shorts, i - 1);
      assert es[1..][..i - 1] == es[..i][1..];
      forall c ensures FirstOwner(EntriesDeclare(es[..i]), c).Some?
                   <==> FirstOwner(Declares(es[0].owner, es[0].opts), c).Some? || FirstOwner(EntriesDeclare(es[..i][1..]), c).Some?
               ensures FirstOwner(Declares(es[0].owner, es[0].opts), c).Some? || c in claimed <==> c in claimed + mine {
        FirstOwnerAppend(Declares(es[0].owner, es[0].opts), EntriesDeclare(es[..i][1..]), c);
        DeclaresOwner(es[0].owner, es[0].opts, c);
      }
    }
  }

  /** The short iteration of an entry reaches the keys it declares that no earlier entry does. */
  lemma ReachedKeys(h: Hol, i: nat, c: int)
    requires HolOk(h) && i < |h.entries|
    ensures h.entries[i].so <= |h.shorts|
    ensures c in Reached(h, i)
      <==> FirstOwner(EntriesDeclare(h.entries[..i]), c).None? && FirstOwner(Declares(h.entries[i].owner, h.entries[i].opts), c).Some?
  {
    var before := StretchAt(h.entries, [], h.shorts, i);
    var e := h.entries[i];
    var so := h.shorts[e.so..];
    assert h.shorts == before + so;
    assert Fresh(e.opts, Keys(before)) <= so by {
      assert (before + Fresh(e.opts, Keys(before)))[|before|..] == Fresh(e.opts, Keys(before));
    }
    WalkFresh({}, e.opts, before, so);
    assert {} + Keys(before) == Keys(before);
    FreshKeys(e.opts, Keys(before));
    DeclaresOwner(e.owner, e.opts, c);
  }

  /**
   For every tree and key: exactly one entry's short iteration reaches a declared key, and it
   belongs to the parser that declares the key first.
   */
  lemma OneEntryReaches(a: Argp, path: Path, cluster: Option<Cluster>, c: int)
    ensures var h := TreeHol(a, path, cluster); var owner := FirstOwner(TreeDeclares(a, path), c);
      && HolOk(h) && NoDup(h.shorts)
      && (forall i :: 0 <= i < |h.entries| ==> h.entries[i].so <= |h.shorts|)
      && (forall i :: 0 <= i < |h.entries| && c in Reached(h, i) ==> owner == Some(h.entries[i].owner))
      && (forall i, j :: 0 <= i < j < |h.entries| && c in Reached(h, i) ==> c !in Reached(h, j))
      && (owner.Some? ==> exists i :: 0 <= i < |h.entries| && c in Reached(h, i))
      && (c in h.shorts <==> owner.Some?)
  {
    var h := TreeHol(a, path, cluster);
    TreeOk(a, path, cluster);
    StretchesGrow(h.entries, [], h.shorts);
    TreeHolDeclares(a, path, cluster);
    hide TreeHol, TreeDeclares;
    forall i | 0 <= i < |h.entries|
      ensures h.entries[i].so <= |h.shorts|
      ensures c in Reached(h, i) ==> FirstOwner(TreeDeclares(a, path), c) == Some(h.entries[i].owner)
    {
      ReachedKeys(h, i, c);
      if c in Reached(h, i) {
        OwnerAt(h.entries, i, c);
      }
    }
    forall i, j | 0 <= i < j < |h.entries| && c in Reached(h, i) ensures c !in Reached(h, j) {
      ReachedKeys(h, i, c);
      ReachedKeys(h, j, c);
      OwnerBefore(h.entries, i, j, c);
    }
    if FirstOwner(TreeDeclares(a, path), c).Some? {
      var i := OwnerExists(h.entries, c);
      ReachedKeys(h, i, c);
    }
    ClaimedKeys(h.entries, [], h.shorts, c);
  }

  /** If the entries before do not declare `c` and this one does, it is the first owner's. */
  lemma OwnerAt(es: seq<HolEntry>, i: nat, c: int)
    requires i < |es|
    requires FirstOwner(EntriesDeclare(es[..i]), c).None? && FirstOwner(Declares(es[i].owner, es[i].opts), c).Some?
    ensures FirstOwner(EntriesDeclare(es), c) == Some(es[i].owner)
  {
    assert es == es[..i] + ([es[i]] + es[i + 1..]);
    EntriesAppend(es[..i], [es[i]] + es[i + 1..]);
    assert ([es[i]] + es[i + 1..])[1..] == es[i + 1..];
    FirstOwnerAppend(EntriesDeclare(es[..i]), EntriesDeclare([es[i]] + es[i + 1..]), c);
    FirstOwnerAppend(Declares(es[i].owner, es[i].opts), EntriesDeclare(es[i + 1..]), c);
    DeclaresOwner(es[i].owner, es[i].opts, c);
  }

  lemma OwnerBefore(es: seq<HolEntry>, i: nat, j: nat, c: int)
    requires i < j < |es| && FirstOwner(Declares(es[i].owner, es[i].opts), c).Some?
    ensures FirstOwner(EntriesDeclare(es[..j]), c).Some?
  {
    var fs := es[..j];
    assert fs == fs[..i] + ([fs[i]] + fs[i + 1..]);
    EntriesAppend(fs[..i], [fs[i]] + fs[i + 1..]);
    assert ([fs[i]] + fs[i + 1..])[1..] == fs[i + 1..];
    FirstOwnerAppend(EntriesDeclare(fs[..i]), EntriesDeclare([fs[i]] + fs[i + 1..]), c);
    FirstOwnerAppend(Declares(fs[i].owner, fs[i].opts), EntriesDeclare(fs[i + 1..]), c);
  }

  lemma {:induction false} OwnerExists(es: seq<HolEntry>, c: int) returns (i: nat)
    requires FirstOwner(EntriesDeclare(es), c).Some?
    ensures i < |es| && FirstOwner(EntriesDeclare(es[..i]), c).None? && FirstOwner(Declares(es[i].owner, es[i].opts), c).Some?
    decreases |es|
  {
    FirstOwnerAppend(Declares(es[0].owner, es[0].opts), EntriesDeclare(es[1..]), c);
    if FirstOwner(Declares(es[0].owner, es[0].opts), c).Some? {
      i := 0;
      assert es[..0] == [];
    } else {
      var k := OwnerExists(es[1..], c);
      i := k + 1;
      assert es[..i][1..] == es[1..][..k];
      FirstOwnerAppend(Declares(es[0].owner, es[0].opts), EntriesDeclare(es[..i][1..]), c);
    }
  }

  /** The string holds exactly the declared short keys. */
  lemma {:induction false} ClaimedKeys(es: seq<HolEntry>, claimed: seq<int>, shorts: seq<int>, c: int)
    requires StretchesFrom(es, claimed, shorts)
    ensures c in shorts <==> c in claimed || FirstOwner(EntriesDeclare(es), c).Some?
    decreases |es|
  {
    if es != [] {
      var mine := Fresh(es[0].opts, Keys(claimed));
      FreshKeys(es[0].opts, Keys(claimed));
      ClaimedKeys(es[1..], claimed + mine, shorts, c);
      FirstOwnerAppend(Declares(es[0].owner, es[0].opts), EntriesDeclare(es[1..]), c);
      DeclaresOwner(es[0].owner, es[0].opts, c);
    }
  }
}
