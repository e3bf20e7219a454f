/**
 The order of help entries in terms of what is printed: groups, clusters, documentation,
 letters and names, read off the options themselves.
 */
module ArgpSorting {
  import opened Options
  import opened ArgpTypes
  import opened ArgpOrder

  // ---- names ----

  predicate Unnamed(o: Opt) {
    o.name.None? || o.hidden
  }

  predicate NamedAt(opts: seq<Opt>, i: nat, name: Str) {
    && i < |opts| && opts[i].name == Some(name) && !opts[i].hidden
    && forall j :: 0 <= j < i ==> Unnamed(opts[j])
  }

  /** The first name that is not hidden. */
  ghost predicate HasName(e: Entry, name: Str) {
    exists i: nat :: NamedAt(e.opts, i, name)
  }

  predicate Nameless(e: Entry) {
    forall i :: 0 <= i < |e.opts| ==> Unnamed(e.opts[i])
  }

  lemma {:induction false} FirstLongAt(opts: seq<Opt>)
    ensures FirstLong(opts).None? ==> forall i :: 0 <= i < |opts| ==> Unnamed(opts[i])
    ensures FirstLong(opts).Some? ==> exists i: nat :: NamedAt(opts, i, FirstLong(opts).value)
    decreases |opts|
  {
    if opts != [] {
      if Unnamed(opts[0]) {
        FirstLongAt(opts[1..]);
        assert FirstLong(opts) == FirstLong(opts[1..]);
        if FirstLong(opts).Some? {
          var i: nat :| NamedAt(opts[1..], i, FirstLong(opts).value);
          assert NamedAt(opts, i + 1, FirstLong(opts).value);
        }
      } else {
        assert NamedAt(opts, 0, opts[0].name.value);
      }
    }
  }

  lemma OneName(opts: seq<Opt>, i: nat, m: Str, j: nat, n: Str)
    requires NamedAt(opts, i, m) && NamedAt(opts, j, n)
    ensures m == n
  {
  }

  lemma NameIs(e: Entry)
    ensures FirstLong(e.opts).None? <==> Nameless(e)
    ensures forall name :: HasName(e, name) <==> FirstLong(e.opts) == Some(name)
  {
    FirstLongAt(e.opts);
    hide FirstLong;
    forall name ensures HasName(e, name) <==> FirstLong(e.opts) == Some(name) {
      if HasName(e, name) && FirstLong(e.opts).Some? {
        var i: nat, j: nat :| NamedAt(e.opts, i, name) && NamedAt(e.opts, j, FirstLong(e.opts).value);
        OneName(e.opts, i, name, j, FirstLong(e.opts).value);
      }
    }
  }

  // ---- short options ----

  /** How many of the first `i` options have their key in the entry's part of the string, in step with it. */
  function Used(opts: seq<Opt>, so: seq<int>, i: nat): (n: nat)
    requires i <= |opts|
  {
    if i == 0 then 0 else Used(opts, so, i - 1) + if InStep(opts[i - 1], so, Used(opts, so, i - 1)) then 1 else 0
  }

  predicate InStep(o: Opt, so: seq<int>, k: nat) {
    IsShort(o) && k < |so| && so[k] == o.key
  }

  /** The option is not shadowed: the string has its key. */
  predicate Unshadowed(e: Entry, i: nat) {
    i < |e.opts| && InStep(e.opts[i], e.shorts, Used(e.opts, e.shorts, i))
  }

  predicate ShortAt(e: Entry, i: nat, k: int) {
    && Unshadowed(e, i) && !e.opts[i].hidden && e.opts[i].key == k
    && forall j :: 0 <= j < i && Unshadowed(e, j) ==> e.opts[j].hidden
  }

  /** The first short option that is neither shadowed nor hidden. */
  ghost predicate HasShort(e: Entry, k: int) {
    exists i: nat :: ShortAt(e, i, k)
  }

  predicate Shortless(e: Entry) {
    forall i :: 0 <= i < |e.opts| && Unshadowed(e, i) ==> e.opts[i].hidden
  }

  lemma {:induction false} ShortFrom(e: Entry, i: nat)
    requires i <= |e.opts| && (forall j :: 0 <= j < i && Unshadowed(e, j) ==> e.opts[j].hidden)
    requires Used(e.opts, e.shorts, i) <= |e.shorts|
    ensures var k := FirstShort(e.opts[i..], e.shorts[Used(e.opts, e.shorts, i)..]);
      if k == 0 then Shortless(e) else HasShort(e, k)
    decreases |e.opts| - i
  {
    hide FirstShort, Used, IsShort;
    if i < |e.opts| {
      ShortStep(e, i);
      if InStep(e.opts[i], e.shorts, Used(e.opts, e.shorts, i)) && !e.opts[i].hidden {
        assert ShortAt(e, i, e.opts[i].key);
      } else {
        ShortFrom(e, i + 1);
      }
    } else {
      assert e.opts[i..] == [];
      NoShorts(e.shorts[Used(e.opts, e.shorts, i)..]);
    }
  }

  lemma NoShorts(so: seq<int>)
    ensures FirstShort([], so) == 0
  {
  }

  /** One option of the walk. */
  lemma ShortStep(e: Entry, i: nat)
    requires i < |e.opts| && Used(e.opts, e.shorts, i) <= |e.shorts|
    ensures var n, o := Used(e.opts, e.shorts, i), e.opts[i]; var m := Used(e.opts, e.shorts, i + 1);
      && m == (if InStep(o, e.shorts, n) then n + 1 else n) && m <= |e.shorts|
      && (InStep(o, e.shorts, n) ==> o.key != 0)
      && FirstShort(e.opts[i..], e.shorts[n..])
         == if InStep(o, e.shorts, n) && !o.hidden then o.key else FirstShort(e.opts[i + 1..], e.shorts[m..])
  {
    var n := Used(e.opts, e.shorts, i);
    assert e.opts[i..][0] == e.opts[i] && e.opts[i..][1..] == e.opts[i + 1..];
    assert n < |e.shorts| ==> e.shorts[n..][0] == e.shorts[n] && e.shorts[n..][1..] == e.shorts[n + 1..];
  }

  lemma ShortIs(e: Entry)
    ensures ShortOf(e) == 0 <==> Shortless(e)
    ensures forall k :: HasShort(e, k) <==> k != 0 && ShortOf(e) == k
  {
    assert e.opts[0..] == e.opts && e.shorts[0..] == e.shorts;
    ShortFrom(e, 0);
    var s := ShortOf(e);
    hide FirstShort, ShortOf, Used;
    forall k ensures HasShort(e, k) <==> k != 0 && s == k {
      if HasShort(e, k) {
        var i: nat :| ShortAt(e, i, k);
        if s != 0 {
          var j: nat :| ShortAt(e, j, s);
          OneShort(e, i, k, j, s);
        }
      }
    }
    if s != 0 {
      var j: nat :| ShortAt(e, j, s);
    }
  }

  lemma OneShort(e: Entry, i: nat, k: int, j: nat, l: int)
    requires ShortAt(e, i, k) && ShortAt(e, j, l)
    ensures k == l
  {
    hide Used;
  }

  // ---- documentation ----

  /** Past its spaces, the name does not begin with a dash. */
  ghost predicate NoOptionName(name: Str) {
    exists p: nat :: PastSpaces(name, p) && (p == |name| || name[p] != 45)
  }

  /** Where the spaces in front end. */
  predicate PastSpaces(name: Str, p: nat) {
    p <= |name| && (forall q :: 0 <= q < p ==> IsSpace(name[q])) && (p == |name| || !IsSpace(name[p]))
  }

  /** A documentation entry that does not look like an option. */
  ghost predicate IsProse(e: Entry) {
    e.opts != [] && e.opts[0].docOnly && exists name :: HasName(e, name) && NoOptionName(name)
  }

  /** The part of a name from its first letter or digit on. */
  predicate FromAlnum(name: Str, p: nat) {
    p <= |name| && (forall q :: 0 <= q < p ==> !IsAlnum(name[q])) && (p == |name| || IsAlnum(name[p]))
  }

  lemma {:induction false} SpacesSkipped(s: Str) returns (p: nat)
    ensures PastSpaces(s, p) && SkipSpace(s) == s[p..]
    decreases |s|
  {
    if s != [] && IsSpace(s[0]) {
      p := SpacesSkipped(s[1..]);
      assert s[1..][p..] == s[p + 1..];
      p := p + 1;
      assert forall q :: 0 < q < p ==> s[q] == s[1..][q - 1];
    } else {
      p := 0;
      assert s[0..] == s;
    }
  }

  lemma OneEnd(s: Str, p: nat, r: nat)
    requires PastSpaces(s, p) && PastSpaces(s, r)
    ensures p == r
  {
  }

  lemma CanonFlag(name: Str)
    ensures Canon(name).0 <==> NoOptionName(name)
  {
    var p := SpacesSkipped(name);
    assert Canon(name).0 <==> p == |name| || name[p] != 45;
    hide SkipSpace, SkipToAlnum, PastSpaces, Canon;
    if NoOptionName(name) {
      var r: nat :| PastSpaces(name, r) && (r == |name| || name[r] != 45);
      OneEnd(name, p, r);
    }
  }

  lemma {:induction false} SkippedTo(s: Str, p: nat)
    requires FromAlnum(s, p)
    ensures SkipToAlnum(s) == s[p..] && SkipToAlnum(SkipSpace(s)) == s[p..]
    decreases |s|
  {
    if p > 0 {
      assert !IsAlnum(s[0]) && s[1..][p - 1..] == s[p..];
      assert forall q :: 0 <= q < p - 1 ==> s[1..][q] == s[q + 1];
      SkippedTo(s[1..], p - 1);
    }
  }

  lemma {:induction false} SomeAlnum(s: Str) returns (p: nat)
    ensures FromAlnum(s, p)
    decreases |s|
  {
    if s == [] || IsAlnum(s[0]) {
      p := 0;
    } else {
      p := SomeAlnum(s[1..]);
      p := p + 1;
      assert forall q :: 0 < q < p ==> s[q] == s[1..][q - 1];
    }
  }

  /** The name an entry is sorted by: the first visible one, of documentation from its first letter or digit on. */
  ghost predicate SortName(e: Entry, s: Str) {
    if e.opts != [] && e.opts[0].docOnly
    then exists name, p: nat :: HasName(e, name) && FromAlnum(name, p) && s == name[p..]
    else HasName(e, s)
  }

  lemma SortNameIs(e: Entry)
    ensures forall s :: SortName(e, s) <==> LongOf(e) == Some(s)
    ensures LongOf(e).None? <==> Nameless(e)
  {
    NameIs(e);
    var long := FirstLong(e.opts);
    hide FirstLong, SkipSpace, SkipToAlnum;
    forall s ensures SortName(e, s) <==> LongOf(e) == Some(s) {
      if IsDoc(e) && long.Some? {
        var p := SomeAlnum(long.value);
        SkippedTo(long.value, p);
        if SortName(e, s) {
          var name, q: nat :| HasName(e, name) && FromAlnum(name, q) && s == name[q..];
          SkippedTo(name, q);
        }
        assert HasName(e, long.value);
      }
    }
  }

  lemma ProseIs(e: Entry)
    ensures DocRank(e) == (if IsProse(e) then 1 else 0)
  {
    NameIs(e);
    var long := FirstLong(e.opts);
    hide FirstLong, Canon, NoOptionName;
    if long.Some? {
      CanonFlag(long.value);
      assert HasName(e, long.value);
    }
  }

  // ---- letters ----

  predicate Capital(x: int) {
    65 <= x <= 90
  }

  predicate SameLetter(x: int, y: int) {
    x == y || (Capital(x) && y == x + 32) || (Capital(y) && x == y + 32)
  }

  /** Earlier in the alphabet, whatever the case. */
  predicate EarlierLetter(x: int, y: int) {
    (if Capital(x) then x + 32 else x) < (if Capital(y) then y + 32 else y)
  }

  /** Alphabetical, and the small letter before its capital. */
  predicate LettersInOrder(x: int, y: int) {
    EarlierLetter(x, y) || (SameLetter(x, y) && x >= y)
  }

  /** The letter an entry is sorted by; 0 if there is nothing to show. */
  ghost predicate Letter(e: Entry, x: int) {
    || HasShort(e, x)
    || (Shortless(e) && ((exists s :: SortName(e, s) && s != [] && s[0] == x) || (x == 0 && (Nameless(e) || SortName(e, [])))))
  }

  lemma LetterIs(e: Entry)
    ensures forall x :: Letter(e, x) <==> First(e) == x
  {
    ShortIs(e);
    SortNameIs(e);
    hide ShortOf, LongOf, HasShort, Shortless, SortName, Nameless;
    forall x ensures Letter(e, x) <==> First(e) == x {
      if First(e) == x && ShortOf(e) == 0 && LongOf(e).Some? {
        assert SortName(e, LongOf(e).value);
      }
      if ShortOf(e) == 0 && x == 0 {
        assert !HasShort(e, 0);
      }
    }
  }

  // ---- names without regard to case ----

  /** Up to where they part the names agree but for case; there the first ends, or has the earlier letter. */
  ghost predicate NamesInOrder(a: Str, b: Str) {
    exists p :: 0 <= p <= |a| && p <= |b| && SamePart(a, b, p) && (p == |a| || (p < |b| && EarlierLetter(a[p], b[p])))
  }

  predicate SamePart(a: Str, b: Str, p: nat)
    requires p <= |a| && p <= |b|
  {
    forall q :: 0 <= q < p ==> SameLetter(a[q], b[q])
  }

  lemma {:induction false} StrcasecmpMeans(a: Str, b: Str)
    requires Strcasecmp(a, b) <= 0
    ensures NamesInOrder(a, b)
    decreases |a|
  {
    if a == [] {
      assert SamePart(a, b, 0);
    } else if ToLower(a[0]) != ToLower(b[0]) {
      assert SamePart(a, b, 0);
    } else {
      StrcasecmpMeans(a[1..], b[1..]);
      var p :| 0 <= p <= |a[1..]| && p <= |b[1..]| && SamePart(a[1..], b[1..], p)
        && (p == |a[1..]| || (p < |b[1..]| && EarlierLetter(a[1..][p], b[1..][p])));
      assert SamePart(a, b, p + 1) by {
        assert forall q :: 0 < q < p + 1 ==> a[q] == a[1..][q - 1] && b[q] == b[1..][q - 1];
      }
    }
  }

  // ---- the order within a group ----

  /** Two entries of one cluster and group, the first not after the second. */
  ghost predicate EntriesInOrder(e: Entry, f: Entry) {
    && (IsProse(e) ==> IsProse(f))
    && ((IsProse(e) <==> IsProse(f)) ==> forall x, y :: Letter(e, x) && Letter(f, y) ==>
          && LettersInOrder(x, y)
          && (x == y ==>
                && (Shortless(f) ==> Shortless(e))
                && (Shortless(e) && Shortless(f) ==>
                      && (Nameless(f) ==> Nameless(e))
                      && forall a, b :: SortName(e, a) && SortName(f, b) ==> NamesInOrder(a, b))))
  }

  /**
   In a sorted list, among the entries of one cluster and group: documentation that does not
   look like an option comes last; the others come by their letters, small before capital;
   of those with one letter the ones without a short option come first, and they come by name,
   whatever the case. Hidden names and options, and shadowed ones, do not matter.
   */
  lemma SortedByName(s: seq<Entry>, i: nat, j: nat)
    requires Sorted(s) && i < j < |s| && s[i].cluster == s[j].cluster && s[i].group == s[j].group
    ensures EntriesInOrder(s[i], s[j])
  {
    var e, f := s[i], s[j];
    assert EntryCmp(e, f) <= 0;
    if e.cluster.Some? {
      SelfCmp(e.cluster.value);
    }
    assert NameCmp(e, f) <= 0;
    hide EntryCmp, Sorted;
    NameCmpMeans(e, f);
  }

  lemma SelfCmp(c: Cluster)
    ensures ClusterCmp(c, c) == 0 && GroupCmp(Base(c).group, Base(c).group) == 0
  {
  }

  lemma NameCmpMeans(e: Entry, f: Entry)
    requires NameCmp(e, f) <= 0
    ensures EntriesInOrder(e, f)
  {
    hide IsProse, Letter, Shortless, Nameless, SortName, NamesInOrder, DocRank, First, ShortOf, LongOf, Strcasecmp;
    ProseIs(e);
    ProseIs(f);
    LetterIs(e);
    LetterIs(f);
    ShortIs(e);
    ShortIs(f);
    SortNameIs(e);
    SortNameIs(f);
    if DocRank(e) == DocRank(f) {
      forall x, y | Letter(e, x) && Letter(f, y)
        ensures LettersInOrder(x, y)
        ensures x == y ==> (Shortless(f) ==> Shortless(e))
        ensures x == y && Shortless(e) && Shortless(f) ==>
          (Nameless(f) ==> Nameless(e)) && forall a, b :: SortName(e, a) && SortName(f, b) ==> NamesInOrder(a, b)
      {
        assert x == First(e) && y == First(f);
        forall a, b | x == y && ShortOf(e) == 0 && ShortOf(f) == 0 && SortName(e, a) && SortName(f, b) ensures NamesInOrder(a, b) {
          assert LongOf(e) == Some(a) && LongOf(f) == Some(b);
          StrcasecmpMeans(a, b);
        }
      }
    }
  }

  // ---- groups and clusters ----

  /** 0, 1, 2, and so on, then the negative ones up to -1. */
  predicate GroupsInOrder(g: int, h: int) {
    (g < 0 ==> h < 0) && ((g < 0 <==> h < 0) ==> g <= h)
  }

  lemma GroupCmpMeans(g: int, h: int)
    ensures GroupCmp(g, h) <= 0 <==> GroupsInOrder(g, h)
    ensures GroupCmp(g, h) == 0 <==> g == h
  {
  }

  /** The group that counts for the list as a whole: that of the outermost cluster, or the entry's own. */
  ghost predicate OuterGroup(e: Entry, g: int) {
    if e.cluster.None? then g == e.group
    else exists top :: Within(e.cluster.value, top) && top.parent.None? && g == top.group
  }

  lemma {:induction false} OuterIs(c: Cluster, top: Cluster)
    requires Within(c, top) && top.parent.None?
    ensures top == Base(c)
  {
    if c != top {
      OuterIs(c.parent.value, top);
    }
  }

  lemma OuterGroupIs(e: Entry, g: int)
    requires OuterGroup(e, g)
    ensures BaseGroup(e) == g
  {
    if e.cluster.Some? {
      var top :| Within(e.cluster.value, top) && top.parent.None? && g == top.group;
      OuterIs(e.cluster.value, top);
    }
  }

  /** Clusters at one depth whose ancestors differ are as those are. */
  lemma {:induction false} CousinsAbove(c: Cluster, d: Cluster, k: nat)
    requires Depth(c) == Depth(d) && k <= Depth(c) && CousinCmp(Ancestor(c, k), Ancestor(d, k)) != 0
    ensures CousinCmp(c, d) == CousinCmp(Ancestor(c, k), Ancestor(d, k))
    decreases Depth(c)
  {
    if k < Depth(c) {
      if c.parent == d.parent {
        SelfCousin(Ancestor(c, k));
      } else {
        CousinsAbove(c.parent.value, d.parent.value, k);
      }
    }
  }

  lemma SelfCousin(c: Cluster)
    ensures CousinCmp(c, c) == 0
  {
  }

  lemma {:induction false} AncestorTwice(c: Cluster, m: nat, k: nat)
    requires k <= m <= Depth(c)
    ensures Ancestor(Ancestor(c, m), k) == Ancestor(c, k)
  {
    if m < Depth(c) {
      AncestorTwice(c.parent.value, m, k);
    }
  }

  lemma ClustersAbove(x: Cluster, y: Cluster, c: Cluster, d: Cluster)
    requires Within(x, c) && Within(y, d) && c.parent == d.parent && SiblingCmp(c, d) != 0
    ensures ClusterCmp(x, y) == SiblingCmp(c, d)
  {
    WithinPlaces(x, c);
    WithinPlaces(y, d);
    var k := Depth(c);
    assert Depth(d) == k;
    var m := if Depth(x) < Depth(y) then Depth(x) else Depth(y);
    AncestorTwice(x, m, k);
    AncestorTwice(y, m, k);
    hide Places;
    CousinsAbove(Ancestor(x, m), Ancestor(y, m), k);
  }

  /**
   In a sorted list groups come in order: those of the outermost clusters first, within one the
   entries outside all clusters first, of two clusters side by side the entries below that of
   the earlier group, or of the larger index in one group, and in one cluster the entries of the
   earlier group.
   */
  lemma SortedByGroup(s: seq<Entry>, i: nat, j: nat)
    requires Sorted(s) && i < j < |s|
    ensures forall g, h :: OuterGroup(s[i], g) && OuterGroup(s[j], h) ==>
      GroupsInOrder(g, h) && (g == h && s[j].cluster.None? ==> s[i].cluster.None?)
    ensures s[i].cluster == s[j].cluster ==> GroupsInOrder(s[i].group, s[j].group)
    ensures s[i].cluster.Some? && s[j].cluster.Some? ==>
      forall c, d :: Within(s[i].cluster.value, c) && Within(s[j].cluster.value, d) && c.parent == d.parent ==>
        GroupsInOrder(c.group, d.group) && (c.group == d.group ==> c.index >= d.index)
  {
    var e, f := s[i], s[j];
    assert EntryCmp(e, f) <= 0;
    GroupCmpMeans(BaseGroup(e), BaseGroup(f));
    hide Sorted, NameCmp, Places;
    forall g, h | OuterGroup(e, g) && OuterGroup(f, h)
      ensures GroupsInOrder(g, h) && (g == h && f.cluster.None? ==> e.cluster.None?)
    {
      OuterGroupIs(e, g);
      OuterGroupIs(f, h);
    }
    if e.cluster == f.cluster {
      if e.cluster.Some? {
        SelfCmp(e.cluster.value);
      }
      GroupCmpMeans(e.group, f.group);
    }
    if e.cluster.Some? && f.cluster.Some? {
      forall c, d | Within(e.cluster.value, c) && Within(f.cluster.value, d) && c.parent == d.parent
        ensures GroupsInOrder(c.group, d.group) && (c.group == d.group ==> c.index >= d.index)
      {
        SiblingsInOrder(e, f, c, d);
      }
    }
  }

  lemma SiblingsInOrder(e: Entry, f: Entry, c: Cluster, d: Cluster)
    requires EntryCmp(e, f) <= 0 && e.cluster.Some? && f.cluster.Some?
    requires Within(e.cluster.value, c) && Within(f.cluster.value, d) && c.parent == d.parent
    ensures GroupsInOrder(c.group, d.group) && (c.group == d.group ==> c.index >= d.index)
  {
    WithinPlaces(e.cluster.value, c);
    WithinPlaces(f.cluster.value, d);
    GroupCmpMeans(c.group, d.group);
    GroupCmpMeans(BaseGroup(e), BaseGroup(f));
    hide Places, NameCmp, ClusterCmp;
    if SiblingCmp(c, d) != 0 {
      ClustersAbove(e.cluster.value, f.cluster.value, c, d);
      if c.parent.Some? {
        assert Base(c) == Base(d);
      }
    }
  }
}
