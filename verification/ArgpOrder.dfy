/**
 The order of help entries. The comparator works through groups, clusters, documentation
 flags, first letters and long names; it is shown to be the lexicographic comparison of one
 integer sequence per entry, which makes it a total preorder and keeps clusters together.
 */
module ArgpOrder {
  import opened Options
  import opened ArgpTypes

  /**
   A cluster of entries. `id`, its place in the tree of parsers, tells clusters with equal
   fields apart, as their addresses do.
   */
  datatype Cluster = Cluster(id: seq<nat>, group: int, index: int, parent: Option<Cluster>)

  /** A help entry: an option with its aliases, and the short-option string from its pointer on. */
  datatype Entry = Entry(opts: seq<Opt>, shorts: seq<int>, group: int, cluster: Option<Cluster>)

  // ---- the comparator ----

  function Depth(c: Cluster): nat {
    if c.parent.None? then 0 else 1 + Depth(c.parent.value)
  }

  function GroupCmp(g1: int, g2: int): int {
    if (g1 < 0 && g2 < 0) || (g1 >= 0 && g2 >= 0) then g1 - g2 else g2 - g1
  }

  function SiblingCmp(c1: Cluster, c2: Cluster): int {
    var cmp := GroupCmp(c1.group, c2.group);
    if cmp != 0 then cmp else c2.index - c1.index
  }

  /** Clusters at the same depth. */
  function CousinCmp(c1: Cluster, c2: Cluster): int
    requires Depth(c1) == Depth(c2)
  {
    if c1.parent == c2.parent then SiblingCmp(c1, c2)
    else
      var cmp := CousinCmp(c1.parent.value, c2.parent.value);
      if cmp != 0 then cmp
      else
        var gcmp := GroupCmp(c1.group, c2.group);
        if gcmp != 0 then gcmp else c2.index - c1.index
  }

  /** The ancestor of `c` at depth `d`. */
  function Ancestor(c: Cluster, d: nat): (a: Cluster)
    requires d <= Depth(c)
    ensures Depth(a) == d
  {
    if Depth(c) == d then c else Ancestor(c.parent.value, d)
  }

  function ClusterCmp(c1: Cluster, c2: Cluster): int {
    if Depth(c1) > Depth(c2) then
      var cmp := CousinCmp(Ancestor(c1, Depth(c2)), c2);
      if cmp != 0 then cmp else 1
    else if Depth(c1) < Depth(c2) then
      var cmp := CousinCmp(c1, Ancestor(c2, Depth(c1)));
      if cmp != 0 then cmp else -1
    else CousinCmp(c1, c2)
  }

  function Base(c: Cluster): Cluster {
    if c.parent.None? then c else Base(c.parent.value)
  }

  function IsSpace(c: int): bool {
    c == 32 || 9 <= c <= 13
  }

  function IsAlnum(c: int): bool {
    48 <= c <= 57 || 65 <= c <= 90 || 97 <= c <= 122
  }

  function ToLower(c: int): int {
    if 65 <= c <= 90 then c + 32 else c
  }

  function SkipSpace(s: Str): Str {
    if s != [] && IsSpace(s[0]) then SkipSpace(s[1..]) else s
  }

  function SkipToAlnum(s: Str): Str {
    if s != [] && !IsAlnum(s[0]) then SkipToAlnum(s[1..]) else s
  }

  /** `canon_doc_option`: whether it is a non-option, and the tail to sort by. */
  function Canon(s: Str): (bool, Str) {
    var t := SkipSpace(s);
    (t == [] || t[0] != 45, SkipToAlnum(t))
  }

  function FirstLong(opts: seq<Opt>): Option<Str> {
    if opts == [] then None
    else if opts[0].name.Some? && !opts[0].hidden then opts[0].name
    else FirstLong(opts[1..])
  }

  /** The first visible short option of an entry, walking its options and its string together. */
  function FirstShort(opts: seq<Opt>, so: seq<int>): int {
    if opts == [] then 0
    else if IsShort(opts[0]) && so != [] && so[0] == opts[0].key then
      if !opts[0].hidden then opts[0].key else FirstShort(opts[1..], so[1..])
    else FirstShort(opts[1..], so)
  }

  function Strcasecmp(a: Str, b: Str): int {
    if a == [] && b == [] then 0
    else if a == [] then -ToLower(b[0])
    else if b == [] then ToLower(a[0])
    else if ToLower(a[0]) != ToLower(b[0]) then ToLower(a[0]) - ToLower(b[0])
    else Strcasecmp(a[1..], b[1..])
  }

  predicate IsDoc(e: Entry) {
    e.opts != [] && e.opts[0].docOnly
  }

  /** `doc1`: a documentation entry that does not look like an option. */
  function DocRank(e: Entry): int {
    var long := FirstLong(e.opts);
    if IsDoc(e) && long.Some? && Canon(long.value).0 then 1 else 0
  }

  /** `long1` as it is after `canon_doc_option` may have moved it. */
  function LongOf(e: Entry): Option<Str> {
    var long := FirstLong(e.opts);
    if IsDoc(e) && long.Some? then Some(Canon(long.value).1) else long
  }

  function ShortOf(e: Entry): int {
    FirstShort(e.opts, e.shorts)
  }

  function First(e: Entry): int {
    if ShortOf(e) != 0 then ShortOf(e)
    else if LongOf(e).Some? && LongOf(e).value != [] then LongOf(e).value[0]
    else 0
  }

  function Bit(b: bool): int {
    if b then 1 else 0
  }

  function BaseGroup(e: Entry): int {
    if e.cluster.Some? then Base(e.cluster.value).group else e.group
  }

  /** The first of two criteria that decides. */
  function Then(cmp1: int, cmp2: int): int {
    if cmp1 != 0 then cmp1 else cmp2
  }

  function LongCmp(e1: Entry, e2: Entry): int {
    if ShortOf(e1) != 0 then 0
    else
      var l1, l2 := LongOf(e1), LongOf(e2);
      Then(Bit(l1.Some?) - Bit(l2.Some?), if l1.Some? && l2.Some? then Strcasecmp(l1.value, l2.value) else 0)
  }

  function NameCmp(e1: Entry, e2: Entry): int {
    Then(DocRank(e1) - DocRank(e2),
         Then(ToLower(First(e1)) - ToLower(First(e2)),
              Then(First(e2) - First(e1),
                   Then(Bit(ShortOf(e1) != 0) - Bit(ShortOf(e2) != 0), LongCmp(e1, e2)))))
  }

  /** `hol_entry_cmp`. */
  function EntryCmp(e1: Entry, e2: Entry): int {
    Then(GroupCmp(BaseGroup(e1), BaseGroup(e2)),
         Then(Bit(e1.cluster.Some?) - Bit(e2.cluster.Some?),
              Then(if e1.cluster.Some? && e2.cluster.Some? then ClusterCmp(e1.cluster.value, e2.cluster.value) else 0,
                   Then(GroupCmp(e1.group, e2.group), NameCmp(e1, e2)))))
  }

  // ---- lexicographic comparison of integer sequences ----

  function Lex(a: seq<int>, b: seq<int>): int {
    if a == [] && b == [] then 0
    else if a == [] then -1
    else if b == [] then 1
    else if a[0] < b[0] then -1
    else if a[0] > b[0] then 1
    else Lex(a[1..], b[1..])
  }

  lemma {:induction false} LexFlip(a: seq<int>, b: seq<int>)
    ensures Lex(b, a) == -Lex(a, b)
    decreases |a|
  {
    if a != [] && b != [] && a[0] == b[0] {
      LexFlip(a[1..], b[1..]);
    }
  }

  lemma {:induction false} LexZero(a: seq<int>, b: seq<int>)
    ensures Lex(a, b) == 0 <==> a == b
    decreases |a|
  {
    if a != [] && b != [] && a[0] == b[0] {
      LexZero(a[1..], b[1..]);
      assert a == [a[0]] + a[1..] && b == [b[0]] + b[1..];
    }
  }

  lemma {:induction false} LexTransitive(a: seq<int>, b: seq<int>, c: seq<int>)
    requires Lex(a, b) <= 0 && Lex(b, c) <= 0
    ensures Lex(a, c) <= 0 && (Lex(a, c) == 0 ==> Lex(a, b) == 0 && Lex(b, c) == 0)
    decreases |a|
  {
    if a != [] && b != [] && c != [] && a[0] == b[0] == c[0] {
      LexTransitive(a[1..], b[1..], c[1..]);
    }
  }

  /** Two sequences that differ before either ends. */
  predicate Differ(a: seq<int>, b: seq<int>) {
    a != [] && b != [] && (a[0] != b[0] || Differ(a[1..], b[1..]))
  }

  lemma {:induction false} DifferAppend(a: seq<int>, b: seq<int>, x: seq<int>, y: seq<int>)
    requires Differ(a, b)
    ensures Differ(a + x, b + y) && Lex(a + x, b + y) == Lex(a, b)
    decreases |a|
  {
    assert (a + x)[0] == a[0] && (b + y)[0] == b[0];
    if a[0] == b[0] {
      DifferAppend(a[1..], b[1..], x, y);
      assert (a + x)[1..] == a[1..] + x && (b + y)[1..] == b[1..] + y;
    }
  }

  lemma {:induction false} CommonPrefix(p: seq<int>, a: seq<int>, b: seq<int>)
    ensures Lex(p + a, p + b) == Lex(a, b) && (Differ(p + a, p + b) <==> Differ(a, b))
    decreases |p|
  {
    if p == [] {
      assert p + a == a && p + b == b;
    } else {
      CommonPrefix(p[1..], a, b);
      assert (p + a)[1..] == p[1..] + a && (p + b)[1..] == p[1..] + b;
    }
  }

  function Sign(x: int): int {
    if x < 0 then -1 else if x > 0 then 1 else 0
  }

  /** `cmp` compares as the keys `a` and `b` do, and unequal keys differ before either ends. */
  predicate Agrees(cmp: int, a: seq<int>, b: seq<int>) {
    if cmp == 0 then a == b else Differ(a, b) && Lex(a, b) == Sign(cmp)
  }

  /** Criteria tried one after the other compare as their keys put one after the other. */
  lemma AgreesThen(cmp1: int, a1: seq<int>, b1: seq<int>, cmp2: int, a2: seq<int>, b2: seq<int>)
    requires Agrees(cmp1, a1, b1) && (cmp1 == 0 ==> Agrees(cmp2, a2, b2))
    ensures Agrees(Then(cmp1, cmp2), a1 + a2, b1 + b2)
  {
    if cmp1 != 0 {
      DifferAppend(a1, b1, a2, b2);
    } else {
      CommonPrefix(a1, a2, b2);
    }
  }

  lemma AgreesOne(x: int, y: int)
    ensures Agrees(x - y, [x], [y])
  {
  }

  // ---- the key of an entry ----

  /** Groups in the order 0, 1, ..., n, -m, ..., -1. */
  function GroupKey(g: int): seq<int> {
    [Bit(g < 0), g]
  }

  lemma AgreesGroup(g1: int, g2: int)
    ensures Agrees(GroupCmp(g1, g2), GroupKey(g1), GroupKey(g2))
  {
    assert GroupKey(g1)[1..] == [g1] && GroupKey(g2)[1..] == [g2];
  }

  /** A cluster's place among its siblings; larger indices come first. */
  function SiblingKey(c: Cluster): (s: seq<int>)
    ensures |s| == 4 && s[0] == 1
  {
    [1] + GroupKey(c.group) + [-c.index]
  }

  /** The places from the root down. */
  function Places(c: Cluster): (s: seq<int>)
    ensures |s| == 4 * (Depth(c) + 1)
  {
    (if c.parent.None? then [] else Places(c.parent.value)) + SiblingKey(c)
  }

  function ClusterKey(c: Cluster): seq<int> {
    Places(c) + [0]
  }

  lemma AgreesSibling(c1: Cluster, c2: Cluster)
    ensures Agrees(SiblingCmp(c1, c2), SiblingKey(c1), SiblingKey(c2))
  {
    AgreesGroup(c1.group, c2.group);
    AgreesOne(-c1.index, -c2.index);
    AgreesThen(GroupCmp(c1.group, c2.group), GroupKey(c1.group), GroupKey(c2.group),
               c2.index - c1.index, [-c1.index], [-c2.index]);
    var t1, t2 := GroupKey(c1.group) + [-c1.index], GroupKey(c2.group) + [-c2.index];
    CommonPrefix([1], t1, t2);
    assert SiblingKey(c1) == [1] + t1 && SiblingKey(c2) == [1] + t2;
  }

  lemma {:induction false} AgreesCousin(c1: Cluster, c2: Cluster)
    requires Depth(c1) == Depth(c2)
    ensures Agrees(CousinCmp(c1, c2), Places(c1), Places(c2))
    decreases c1
  {
    AgreesSibling(c1, c2);
    if c1.parent == c2.parent {
      var p := if c1.parent.None? then [] else Places(c1.parent.value);
      CommonPrefix(p, SiblingKey(c1), SiblingKey(c2));
    } else {
      AgreesCousin(c1.parent.value, c2.parent.value);
      AgreesThen(CousinCmp(c1.parent.value, c2.parent.value), Places(c1.parent.value), Places(c2.parent.value),
                 SiblingCmp(c1, c2), SiblingKey(c1), SiblingKey(c2));
    }
  }

  /** Below an ancestor's places, a deeper cluster's key goes on where the ancestor's ends. */
  lemma {:induction false} PlacesBelow(c: Cluster, d: nat)
    requires d < Depth(c)
    ensures Places(Ancestor(c, d)) + [1] <= Places(c)
  {
    if d < Depth(c.parent.value) {
      PlacesBelow(c.parent.value, d);
    }
  }

  /** Where a deeper cluster's key goes on, a shallower one's ends: the deeper one comes after. */
  lemma AgreesDeeper(c1: Cluster, c2: Cluster)
    requires Depth(c1) > Depth(c2)
    ensures Agrees(Then(CousinCmp(Ancestor(c1, Depth(c2)), c2), 1), ClusterKey(c1), ClusterKey(c2))
  {
    hide Places, CousinCmp, Ancestor, Lex, Differ;
    var a := Ancestor(c1, Depth(c2));
    var p := Places(a);
    AgreesCousin(a, c2);
    PlacesBelow(c1, Depth(c2));
    var rest := ClusterKey(c1)[|p|..];
    assert ClusterKey(c1) == p + rest && rest[0] == 1;
    AgreesHead(1, rest, [0]);
    AgreesThen(CousinCmp(a, c2), p, Places(c2), 1, rest, [0]);
  }

  lemma AgreesHead(cmp: int, a: seq<int>, b: seq<int>)
    requires a != [] && b != [] && a[0] > b[0] && cmp > 0
    ensures Agrees(cmp, a, b)
  {
  }

  lemma AgreesFlip(cmp: int, a: seq<int>, b: seq<int>)
    requires Agrees(cmp, a, b)
    ensures Agrees(-cmp, b, a)
  {
    LexFlip(a, b);
    DifferFlip(a, b);
  }

  lemma {:induction false} DifferFlip(a: seq<int>, b: seq<int>)
    ensures Differ(a, b) == Differ(b, a)
    decreases |a|
  {
    if a != [] && b != [] {
      DifferFlip(a[1..], b[1..]);
    }
  }

  lemma {:induction false} CousinFlip(c1: Cluster, c2: Cluster)
    requires Depth(c1) == Depth(c2)
    ensures CousinCmp(c2, c1) == -CousinCmp(c1, c2)
    decreases c1
  {
    if c1.parent != c2.parent {
      CousinFlip(c1.parent.value, c2.parent.value);
    }
  }

  lemma AgreesCluster(c1: Cluster, c2: Cluster)
    ensures Agrees(ClusterCmp(c1, c2), ClusterKey(c1), ClusterKey(c2))
  {
    if Depth(c1) > Depth(c2) {
      AgreesDeeper(c1, c2);
    } else if Depth(c1) < Depth(c2) {
      AgreesDeeper(c2, c1);
      AgreesFlip(Then(CousinCmp(Ancestor(c2, Depth(c1)), c1), 1), ClusterKey(c2), ClusterKey(c1));
      CousinFlip(Ancestor(c2, Depth(c1)), c1);
    } else {
      AgreesCousin(c1, c2);
      AgreesThen(CousinCmp(c1, c2), Places(c1), Places(c2), 0, [0], [0]);
    }
  }

  /** A name as `strcasecmp` reads it, terminator included. */
  function NameKey(s: Str): seq<int> {
    if s == [] then [0] else [ToLower(s[0])] + NameKey(s[1..])
  }

  lemma {:induction false} AgreesName(a: Str, b: Str)
    ensures Agrees(Strcasecmp(a, b), NameKey(a), NameKey(b))
    decreases |a|
  {
    if a != [] && b != [] && ToLower(a[0]) == ToLower(b[0]) {
      AgreesName(a[1..], b[1..]);
      CommonPrefix([ToLower(a[0])], NameKey(a[1..]), NameKey(b[1..]));
    }
  }

  function LongKey(e: Entry): seq<int> {
    if ShortOf(e) != 0 then []
    else [Bit(LongOf(e).Some?)] + (if LongOf(e).Some? then NameKey(LongOf(e).value) else [])
  }

  function NamesKey(e: Entry): seq<int> {
    [DocRank(e)] + ([ToLower(First(e))] + ([-First(e)] + ([Bit(ShortOf(e) != 0)] + LongKey(e))))
  }

  /** The sort key: what `hol_entry_cmp` compares, laid out in the order it looks at it. */
  function SortKey(e: Entry): seq<int> {
    GroupKey(BaseGroup(e))
    + ([Bit(e.cluster.Some?)]
       + ((if e.cluster.Some? then ClusterKey(e.cluster.value) else []) + (GroupKey(e.group) + NamesKey(e))))
  }

  lemma AgreesLong(e1: Entry, e2: Entry)
    requires (ShortOf(e1) != 0) == (ShortOf(e2) != 0)
    ensures Agrees(LongCmp(e1, e2), LongKey(e1), LongKey(e2))
  {
    if ShortOf(e1) == 0 {
      var l1, l2 := LongOf(e1), LongOf(e2);
      AgreesOne(Bit(l1.Some?), Bit(l2.Some?));
      if l1.Some? && l2.Some? {
        AgreesName(l1.value, l2.value);
      }
      AgreesThen(Bit(l1.Some?) - Bit(l2.Some?), [Bit(l1.Some?)], [Bit(l2.Some?)],
                 if l1.Some? && l2.Some? then Strcasecmp(l1.value, l2.value) else 0,
                 if l1.Some? then NameKey(l1.value) else [], if l2.Some? then NameKey(l2.value) else []);
    }
  }

  lemma AgreesNames(e1: Entry, e2: Entry)
    ensures Agrees(NameCmp(e1, e2), NamesKey(e1), NamesKey(e2))
  {
    var s1, s2 := Bit(ShortOf(e1) != 0), Bit(ShortOf(e2) != 0);
    if s1 == s2 {
      AgreesLong(e1, e2);
    }
    hide LongKey, LongCmp, First, DocRank, ShortOf;
    var f1, f2, d1, d2 := First(e1), First(e2), DocRank(e1), DocRank(e2);
    AgreesOne(s1, s2);
    AgreesThen(s1 - s2, [s1], [s2], LongCmp(e1, e2), LongKey(e1), LongKey(e2));
    var t1, t2, c := [s1] + LongKey(e1), [s2] + LongKey(e2), Then(s1 - s2, LongCmp(e1, e2));
    AgreesOne(-f1, -f2);
    AgreesThen(f2 - f1, [-f1], [-f2], c, t1, t2);
    AgreesOne(ToLower(f1), ToLower(f2));
    AgreesThen(ToLower(f1) - ToLower(f2), [ToLower(f1)], [ToLower(f2)], Then(f2 - f1, c), [-f1] + t1, [-f2] + t2);
    AgreesOne(d1, d2);
    AgreesThen(d1 - d2, [d1], [d2], Then(ToLower(f1) - ToLower(f2), Then(f2 - f1, c)),
               [ToLower(f1)] + ([-f1] + t1), [ToLower(f2)] + ([-f2] + t2));
  }

  /** The comparator compares sort keys. */
  lemma AgreesEntry(e1: Entry, e2: Entry)
    ensures Agrees(EntryCmp(e1, e2), SortKey(e1), SortKey(e2))
  {
    var g1, g2, b1, b2 := BaseGroup(e1), BaseGroup(e2), Bit(e1.cluster.Some?), Bit(e2.cluster.Some?);
    var cl1, cl2 := if e1.cluster.Some? then ClusterKey(e1.cluster.value) else [], if e2.cluster.Some? then ClusterKey(e2.cluster.value) else [];
    var ccmp := if e1.cluster.Some? && e2.cluster.Some? then ClusterCmp(e1.cluster.value, e2.cluster.value) else 0;
    if e1.cluster.Some? && e2.cluster.Some? {
      AgreesCluster(e1.cluster.value, e2.cluster.value);
    }
    AgreesNames(e1, e2);
    hide NamesKey, NameCmp, ClusterKey, ClusterCmp, BaseGroup;
    AgreesGroup(e1.group, e2.group);
    AgreesThen(GroupCmp(e1.group, e2.group), GroupKey(e1.group), GroupKey(e2.group),
               NameCmp(e1, e2), NamesKey(e1), NamesKey(e2));
    var t1, t2 := GroupKey(e1.group) + NamesKey(e1), GroupKey(e2.group) + NamesKey(e2);
    var c := Then(GroupCmp(e1.group, e2.group), NameCmp(e1, e2));
    if b1 == b2 {
      AgreesThen(ccmp, cl1, cl2, c, t1, t2);
    }
    AgreesOne(b1, b2);
    AgreesThen(b1 - b2, [b1], [b2], Then(ccmp, c), cl1 + t1, cl2 + t2);
    AgreesGroup(g1, g2);
    AgreesThen(GroupCmp(g1, g2), GroupKey(g1), GroupKey(g2), Then(b1 - b2, Then(ccmp, c)),
               [b1] + (cl1 + t1), [b2] + (cl2 + t2));
  }

  lemma EntryCmpIsLex(e1: Entry, e2: Entry)
    ensures Sign(EntryCmp(e1, e2)) == Lex(SortKey(e1), SortKey(e2))
  {
    AgreesEntry(e1, e2);
    LexZero(SortKey(e1), SortKey(e2));
  }

  // ---- total preorder ----

  /** Swapping the arguments flips the sign. */
  lemma EntryCmpFlips(e1: Entry, e2: Entry)
    ensures Sign(EntryCmp(e2, e1)) == -Sign(EntryCmp(e1, e2))
  {
    EntryCmpIsLex(e1, e2);
    EntryCmpIsLex(e2, e1);
    LexFlip(SortKey(e1), SortKey(e2));
  }

  /** All four transitivity clauses, for entries in clusters of any depth. */
  lemma EntryCmpTransitive(e1: Entry, e2: Entry, e3: Entry)
    ensures EntryCmp(e1, e2) < 0 && EntryCmp(e2, e3) < 0 ==> EntryCmp(e1, e3) < 0
    ensures EntryCmp(e1, e2) < 0 && EntryCmp(e2, e3) == 0 ==> EntryCmp(e1, e3) < 0
    ensures EntryCmp(e1, e2) == 0 && EntryCmp(e2, e3) < 0 ==> EntryCmp(e1, e3) < 0
    ensures EntryCmp(e1, e2) == 0 && EntryCmp(e2, e3) == 0 ==> EntryCmp(e1, e3) == 0
  {
    EntryCmpIsLex(e1, e2);
    EntryCmpIsLex(e2, e3);
    EntryCmpIsLex(e1, e3);
    hide EntryCmp, SortKey;
    if Lex(SortKey(e1), SortKey(e2)) <= 0 && Lex(SortKey(e2), SortKey(e3)) <= 0 {
      LexTransitive(SortKey(e1), SortKey(e2), SortKey(e3));
      LexZero(SortKey(e1), SortKey(e2));
      LexZero(SortKey(e2), SortKey(e3));
      LexZero(SortKey(e1), SortKey(e3));
    }
  }

  // ---- clusters stay together ----

  /** `c` is `top` or lies below it. */
  predicate Within(c: Cluster, top: Cluster) {
    c == top || (c.parent.Some? && Within(c.parent.value, top))
  }

  ghost predicate Sorted(s: seq<Entry>) {
    forall i, j :: 0 <= i < j < |s| ==> EntryCmp(s[i], s[j]) <= 0
  }

  /** What the sort keys of a cluster's subtree have in common. */
  function SubtreeKey(top: Cluster): seq<int> {
    GroupKey(Base(top).group) + ([1] + Places(top))
  }

  lemma {:induction false} PrefixConvex(p: seq<int>, a: seq<int>, b: seq<int>, c: seq<int>)
    requires p <= a && p <= c && Lex(a, b) <= 0 && Lex(b, c) <= 0
    ensures p <= b
    decreases |p|
  {
    if p != [] {
      PrefixConvex(p[1..], a[1..], b[1..], c[1..]);
    }
  }

  lemma {:induction false} WithinPlaces(c: Cluster, top: Cluster)
    requires Within(c, top)
    ensures Depth(top) <= Depth(c) && Ancestor(c, Depth(top)) == top
    ensures Places(top) <= Places(c) && Base(c) == Base(top)
  {
    if c != top {
      WithinPlaces(c.parent.value, top);
    }
  }

  lemma Regroup(g: seq<int>, p: seq<int>, r: seq<int>, t: seq<int>)
    ensures g + ([1] + (((p + r) + [0]) + t)) == (g + ([1] + p)) + (r + ([0] + t))
  {
  }

  /** What follows the cluster in a sort key. */
  function Tail(e: Entry): seq<int> {
    GroupKey(e.group) + NamesKey(e)
  }

  lemma WithinPrefix(e: Entry, top: Cluster)
    requires e.cluster.Some? && Within(e.cluster.value, top)
    ensures SubtreeKey(top) <= SortKey(e)
  {
    var c := e.cluster.value;
    WithinPlaces(c, top);
    var rest := Places(c)[|Places(top)|..];
    assert Places(c) == Places(top) + rest;
    Regroup(GroupKey(Base(top).group), Places(top), rest, Tail(e));
    hide NamesKey, Places, GroupKey;
    assert SortKey(e) == SubtreeKey(top) + (rest + ([0] + Tail(e)));
  }

  lemma KeyParts(e: Entry)
    ensures var k := SortKey(e);
      && |k| >= 3 && k[2] == Bit(e.cluster.Some?)
      && k[3..] == (if e.cluster.Some? then ClusterKey(e.cluster.value) else []) + Tail(e)
  {
    hide NamesKey, ClusterKey;
  }

  lemma {:induction false} PlacesMark(c: Cluster, i: nat)
    requires i <= Depth(c)
    ensures 4 * i < |Places(c)| && Places(c)[4 * i] == 1
  {
    if i < Depth(c) {
      PlacesMark(c.parent.value, i);
    }
  }

  lemma {:induction false} AncestorPlaces(c: Cluster, d: nat)
    requires d <= Depth(c)
    ensures Places(Ancestor(c, d)) <= Places(c)
  {
    if d < Depth(c) {
      PlacesBelow(c, d);
    }
  }

  /** A cluster key that starts with a cluster's places is that of a cluster below such places. */
  lemma PlacesWithin(c: Cluster, top: Cluster, tail: seq<int>)
    requires Places(top) <= ClusterKey(c) + tail
    ensures Depth(top) <= Depth(c) && Places(Ancestor(c, Depth(top))) == Places(top)
  {
    hide Places, Ancestor, Depth;
    var p := Places(top);
    if Depth(c) < Depth(top) {
      PlacesMark(top, Depth(c) + 1);
      NotMarked(p, Places(c), tail);
      assert false;
    }
    AncestorPlaces(c, Depth(top));
    SamePrefix(p, Places(Ancestor(c, Depth(top))), Places(c), tail);
  }

  lemma NotMarked(p: seq<int>, s: seq<int>, tail: seq<int>)
    requires p <= s + [0] + tail && |s| < |p|
    ensures p[|s|] == 0
  {
    assert (s + [0] + tail)[|s|] == 0;
  }

  lemma SamePrefix(p: seq<int>, q: seq<int>, s: seq<int>, tail: seq<int>)
    requires p <= s + [0] + tail && q <= s && |p| == |q|
    ensures p == q
  {
    assert forall i :: 0 <= i < |p| ==> p[i] == (s + [0] + tail)[i] == s[i] == q[i];
  }

  /** An entry whose key starts like a subtree's lies below a cluster with the same places. */
  lemma PrefixWithin(e: Entry, top: Cluster)
    requires SubtreeKey(top) <= SortKey(e)
    ensures e.cluster.Some? && Depth(top) <= Depth(e.cluster.value)
    ensures Places(Ancestor(e.cluster.value, Depth(top))) == Places(top)
  {
    hide SortKey, Places, ClusterKey, Tail, Ancestor;
    KeyParts(e);
    var key := SubtreeKey(top);
    assert key[2] == 1 && key[3..] == Places(top);
    hide SubtreeKey;
    assert SortKey(e)[3..][..|key| - 3] == key[3..];
    PlacesWithin(e.cluster.value, top, Tail(e));
  }

  /**
   In a sorted list, between two entries of a cluster's subtree there are only entries of
   that subtree, or of the subtree of another cluster with the same places.
   */
  lemma ClusterContiguous(s: seq<Entry>, i: nat, j: nat, k: nat, top: Cluster)
    requires Sorted(s) && i < j < k < |s|
    requires s[i].cluster.Some? && Within(s[i].cluster.value, top)
    requires s[k].cluster.Some? && Within(s[k].cluster.value, top)
    ensures s[j].cluster.Some? && Depth(top) <= Depth(s[j].cluster.value)
    ensures Places(Ancestor(s[j].cluster.value, Depth(top))) == Places(top)
  {
    WithinPrefix(s[i], top);
    WithinPrefix(s[k], top);
    EntryCmpIsLex(s[i], s[j]);
    EntryCmpIsLex(s[j], s[k]);
    hide SortKey, SubtreeKey, EntryCmp;
    PrefixConvex(SubtreeKey(top), SortKey(s[i]), SortKey(s[j]), SortKey(s[k]));
    PrefixWithin(s[j], top);
  }

  lemma {:induction false} AncestorWithin(c: Cluster, d: nat)
    requires d <= Depth(c)
    ensures Within(c, Ancestor(c, d))
  {
    if d < Depth(c) {
      AncestorWithin(c.parent.value, d);
    }
  }

  // ---- the loops ----

  method HolClusterBase(cl: Cluster) returns (b: Cluster)
    ensures b == Base(cl)
  {
    b := cl;
    while b.parent.Some?
      invariant Base(b) == Base(cl)
      decreases Depth(b)
    {
      b := b.parent.value;
    }
  }

  /** Climb until no deeper than `depth`. */
  method Climb(cl: Cluster, depth: nat) returns (c: Cluster)
    requires Depth(cl) > depth
    ensures c == Ancestor(cl, depth)
  {
    c := cl.parent.value;
    while Depth(c) > depth
      invariant Depth(c) >= depth && Ancestor(c, depth) == Ancestor(cl, depth)
      decreases Depth(c)
    {
      c := c.parent.value;
    }
  }

  method HolClusterCmp(cl1: Cluster, cl2: Cluster) returns (cmp: int)
    ensures cmp == ClusterCmp(cl1, cl2)
  {
    if Depth(cl1) > Depth(cl2) {
      var c := Climb(cl1, Depth(cl2));
      cmp := CousinCmp(c, cl2);
      if cmp == 0 {
        cmp := 1;
      }
    } else if Depth(cl1) < Depth(cl2) {
      var c := Climb(cl2, Depth(cl1));
      cmp := CousinCmp(cl1, c);
      if cmp == 0 {
        cmp := -1;
      }
    } else {
      cmp := CousinCmp(cl1, cl2);
    }
  }

  method HolClusterIsChild(cl1: Option<Cluster>, cl2: Cluster) returns (yes: bool)
    ensures yes <==> cl1.Some? && Within(cl1.value, cl2)
  {
    var c := cl1;
    while c.Some? && c.value != cl2
      invariant (c.Some? && Within(c.value, cl2)) <==> (cl1.Some? && Within(cl1.value, cl2))
      decreases if c.Some? then Depth(c.value) + 1 else 0
    {
      c := c.value.parent;
    }
    yes := c.Some?;
  }

  method CanonDocOption(name: Str) returns (nonOpt: bool, tail: Str)
    ensures (nonOpt, tail) == Canon(name)
  {
    tail := name;
    while tail != [] && IsSpace(tail[0])
      invariant SkipSpace(tail) == SkipSpace(name)
    {
      tail := tail[1..];
    }
    nonOpt := tail == [] || tail[0] != 45;
    ghost var t := tail;
    while tail != [] && !IsAlnum(tail[0])
      invariant SkipToAlnum(tail) == SkipToAlnum(t)
    {
      tail := tail[1..];
    }
  }

  method HolEntryFirstLong(e: Entry) returns (long: Option<Str>)
    ensures long == FirstLong(e.opts)
  {
    var i := 0;
    assert e.opts[0..] == e.opts;
    while i < |e.opts|
      invariant i <= |e.opts| && FirstLong(e.opts[i..]) == FirstLong(e.opts)
    {
      assert e.opts[i..][1..] == e.opts[i + 1..];
      if e.opts[i].name.Some? && !e.opts[i].hidden {
        return e.opts[i].name;
      }
      i := i + 1;
    }
    long := None;
  }

  method HolEntryFirstShort(e: Entry) returns (short: int)
    ensures short == ShortOf(e)
  {
    var i, so := 0, e.shorts;
    assert e.opts[0..] == e.opts;
    while i < |e.opts|
      invariant i <= |e.opts| && FirstShort(e.opts[i..], so) == ShortOf(e)
    {
      assert e.opts[i..][1..] == e.opts[i + 1..];
      var opt := e.opts[i];
      if IsShort(opt) && so != [] && so[0] == opt.key {
        if !opt.hidden {
          return opt.key;
        }
        so := so[1..];
      }
      i := i + 1;
    }
    short := 0;
  }

  /** The whole comparison, criterion by criterion. */
  method HolEntryCmp(e1: Entry, e2: Entry) returns (cmp: int)
    ensures cmp == EntryCmp(e1, e2)
  {
    var group1, group2 := e1.group, e2.group;
    if e1.cluster.Some? {
      var b := HolClusterBase(e1.cluster.value);
      group1 := b.group;
    }
    if e2.cluster.Some? {
      var b := HolClusterBase(e2.cluster.value);
      group2 := b.group;
    }
    cmp := GroupCmp(group1, group2);
    if cmp != 0 { return; }
    cmp := Bit(e1.cluster.Some?) - Bit(e2.cluster.Some?);
    if cmp != 0 { return; }
    if e1.cluster.Some? {
      cmp := HolClusterCmp(e1.cluster.value, e2.cluster.value);
      if cmp != 0 { return; }
    }
    cmp := GroupCmp(e1.group, e2.group);
    if cmp != 0 { return; }
    cmp := HolNameCmp(e1, e2);
  }

  method LongAndDoc(e: Entry) returns (long: Option<Str>, doc: int)
    ensures long == LongOf(e) && doc == DocRank(e)
  {
    long := HolEntryFirstLong(e);
    doc := 0;
    if IsDoc(e) && long.Some? {
      var nonOpt, tail := CanonDocOption(long.value);
      long, doc := Some(tail), Bit(nonOpt);
    }
  }

  method HolNameCmp(e1: Entry, e2: Entry) returns (cmp: int)
    ensures cmp == NameCmp(e1, e2)
  {
    var long1, doc1 := LongAndDoc(e1);
    var long2, doc2 := LongAndDoc(e2);
    cmp := doc1 - doc2;
    if cmp != 0 { return; }
    var short1 := HolEntryFirstShort(e1);
    var short2 := HolEntryFirstShort(e2);
    var first1 := if short1 != 0 then short1 else if long1.Some? && long1.value != [] then long1.value[0] else 0;
    var first2 := if short2 != 0 then short2 else if long2.Some? && long2.value != [] then long2.value[0] else 0;
    cmp := ToLower(first1) - ToLower(first2);
    if cmp != 0 { return; }
    cmp := first2 - first1;
    if cmp != 0 { return; }
    cmp := Bit(short1 != 0) - Bit(short2 != 0);
    if cmp != 0 { return; }
    if short1 == 0 {
      cmp := Bit(long1.Some?) - Bit(long2.Some?);
      if cmp != 0 { return; }
      if long1.Some? {
        cmp := Strcasecmp(long1.value, long2.value);
      }
    }
  }
}
