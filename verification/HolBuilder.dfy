/**
 The loops that build the help list: buffers of a size computed beforehand, filled through
 write positions. Every method is proved to produce what `ArgpHol` specifies; that no write
 leaves its buffer is part of the proof.
 */
module HolBuilder {
  import opened Options
  import opened ArgpTypes
  import opened ArgpOrder
  import opened ArgpHol

  function CountEntries(opts: seq<Opt>): nat {
    if opts == [] then 0 else (if opts[0].alias then 0 else 1) + CountEntries(opts[1..])
  }

  function CountShorts(opts: seq<Opt>): nat {
    if opts == [] then 0 else (if IsShort(opts[0]) then 1 else 0) + CountShorts(opts[1..])
  }

  lemma {:induction false} RunCounts(opts: seq<Opt>, n: nat)
    requires n <= AliasRun(opts)
    ensures CountEntries(opts[n..]) == CountEntries(opts)
    decreases n
  {
    if n > 0 {
      RunCounts(opts[1..], n - 1);
      assert opts[1..][n - 1..] == opts[n..];
    } else {
      assert opts[n..] == opts;
    }
  }

  lemma {:induction false} RunBound(opts: seq<Opt>, n: nat, claimed: set<int>)
    requires n <= |opts|
    ensures |Fresh(opts[..n], claimed)| + CountShorts(opts[n..]) <= CountShorts(opts)
    decreases n
  {
    if n > 0 {
      var rest := opts[1..];
      assert opts[..n][1..] == rest[..n - 1] && opts[n..] == rest[n - 1..];
      RunBound(rest, n - 1, claimed);
      RunBound(rest, n - 1, claimed + {opts[0].key});
    } else {
      assert opts[n..] == opts;
    }
  }

  /** `find_char`: whether `ch` occurs in `a[..end]`. */
  method FindChar(ch: int, a: array<int>, end: nat) returns (found: bool)
    requires end <= a.Length
    ensures found <==> ch in a[..end]
  {
    var i := 0;
    while i < end
      invariant i <= end && ch !in a[..i]
    {
      if a[i] == ch {
        return true;
      }
      i := i + 1;
    }
    found := false;
  }

  /** How many entries and, at most, how many short options there are. */
  method CalculateSpace(opts: seq<Opt>) returns (numEntries: nat, numShorts: nat)
    ensures numEntries == CountEntries(opts) && numShorts == CountShorts(opts)
  {
    numEntries, numShorts := 0, 0;
    var o := 0;
    assert opts[0..] == opts;
    while o < |opts|
      invariant o <= |opts|
      invariant numEntries + CountEntries(opts[o..]) == CountEntries(opts)
      invariant numShorts + CountShorts(opts[o..]) == CountShorts(opts)
    {
      assert opts[o..][1..] == opts[o + 1..];
      if !opts[o].alias {
        numEntries := numEntries + 1;
      }
      if IsShort(opts[o]) {
        numShorts := numShorts + 1;
      }
      o := o + 1;
    }
  }

  lemma FreshStep(opts: seq<Opt>, o: nat, i: nat, claimed: set<int>)
    requires o <= i < |opts|
    ensures Fresh(opts[o..i + 1], claimed)
         == Fresh(opts[o..i], claimed)
            + (if IsShort(opts[i]) && opts[i].key !in claimed + Keys(Fresh(opts[o..i], claimed)) then [opts[i].key] else [])
    decreases i - o
  {
    var run := opts[o..i + 1];
    if o == i {
      assert run == [opts[i]] && opts[o..i] == [] && run[1..] == [];
    } else {
      assert run[0] == opts[o] && run[1..] == opts[o + 1..i + 1] && opts[o..i][1..] == opts[o + 1..i];
      if IsShort(opts[o]) && opts[o].key !in claimed {
        var c := claimed + {opts[o].key};
        FreshStep(opts, o + 1, i, c);
        KeysAppend([opts[o].key], Fresh(opts[o + 1..i], c));
        assert Keys([opts[o].key]) == {opts[o].key};
        assert claimed + ({opts[o].key} + Keys(Fresh(opts[o + 1..i], c))) == c + Keys(Fresh(opts[o + 1..i], c));
      } else {
        FreshStep(opts, o + 1, i, claimed);
      }
    }
  }

  /**
   One entry's do-while loop: its options from `o` on, up to the next that is not an alias.
   Unclaimed short options are written at `so`.
   */
  method FillEntry(opts: seq<Opt>, o: nat, a: array<int>, so0: nat) returns (next: nat, so: nat)
    requires o < |opts|
    requires so0 + CountShorts(opts[o..]) <= a.Length
    modifies a
    ensures next == o + 1 + AliasRun(opts[o + 1..]) <= |opts|
    ensures so <= a.Length
    ensures a[..so] == old(a[..so0]) + Fresh(opts[o..next], Keys(old(a[..so0])))
  {
    ghost var before := a[..so0];
    ghost var claimed := Keys(before);
    so, next := so0, o;
    while next == o || (next < |opts| && opts[next].alias)
      invariant o <= next <= |opts|
      invariant next > o ==> next + AliasRun(opts[next..]) == o + 1 + AliasRun(opts[o + 1..])
      invariant so <= a.Length && a[..so] == before + Fresh(opts[o..next], claimed)
      decreases |opts| - next
    {
      FreshStep(opts, o, next, claimed);
      KeysAppend(before, Fresh(opts[o..next], claimed));
      FreshRoom(opts, o, next, claimed);
      var found := FindChar(opts[next].key, a, so);
      if IsShort(opts[next]) && !found {
        a[so] := opts[next].key;
        so := so + 1;
      }
      if next > o {
        assert opts[next..][1..] == opts[next + 1..];
      }
      next := next + 1;
    }
    assert next < |opts| ==> AliasRun(opts[next..]) == 0;
  }

  /** While an unclaimed short option is left, the buffer has room for it. */
  lemma FreshRoom(opts: seq<Opt>, o: nat, i: nat, claimed: set<int>)
    requires o <= i < |opts|
    ensures |Fresh(opts[o..i], claimed)| + (if IsShort(opts[i]) then 1 else 0) <= CountShorts(opts[o..])
  {
    assert opts[o..][..i - o] == opts[o..i] && opts[o..][i - o..] == opts[i..];
    RunBound(opts[o..], i - o, claimed);
  }

  /** One entry of `make_hol`, in terms of positions in the option list. */
  lemma MakeStep(path: Path, opts: seq<Opt>, o: nat, next: nat, cluster: Option<Cluster>, cur: int, shorts: seq<int>)
    requires o < |opts| && next == o + 1 + AliasRun(opts[o + 1..])
    ensures next <= |opts|
    ensures var g := NextGroup(opts[o], cur);
      var rest := MakeFrom(path, opts[next..], cluster, g, shorts + Fresh(opts[o..next], Keys(shorts)));
      MakeFrom(path, opts[o..], cluster, cur, shorts)
      == Hol([HolEntry(path, opts[o..next], |shorts|, g, cluster)] + rest.entries, rest.shorts)
  {
    hide Fresh, Keys, AliasRun;
    assert opts[o..][1..] == opts[o + 1..];
    assert opts[o..][..next - o] == opts[o..next] && opts[o..][next - o..] == opts[next..];
  }

  /** `make_hol`; a null option list gives an empty list of entries. */
  method MakeHol(path: Path, options: Option<seq<Opt>>, cluster: Option<Cluster>) returns (h: Hol)
    requires options.Some? && options.value != [] ==> !options.value[0].alias
    ensures h == MakeFrom(path, if options.Some? then options.value else [], cluster, 0, [])
  {
    if options.None? {
      return NO_HOL;
    }
    var opts := options.value;
    var numEntries, numShorts := CalculateSpace(opts);
    var entries: seq<HolEntry> := [];
    var shorts := new int[numShorts + 1];
    var o, so, curGroup := 0, 0, 0;
    ghost var target := MakeFrom(path, opts, cluster, 0, []);
    assert opts[0..] == opts && shorts[..0] == [];
    hide MakeFrom, Fresh, CountEntries, CountShorts, AliasRun, Keys;
    while o < |opts|
      invariant o <= |opts| && |entries| + CountEntries(opts[o..]) == numEntries
      invariant so + CountShorts(opts[o..]) <= numShorts
      invariant o < |opts| ==> !opts[o].alias
      invariant entries + MakeFrom(path, opts[o..], cluster, curGroup, shorts[..so]).entries == target.entries
      invariant MakeFrom(path, opts[o..], cluster, curGroup, shorts[..so]).shorts == target.shorts
    {
      ghost var claimed := shorts[..so];
      var next, so1 := FillEntry(opts, o, shorts, so);
      assert shorts[..so1] == claimed + Fresh(opts[o..next], Keys(claimed));
      MakeStep(path, opts, o, next, cluster, curGroup, claimed);
      EntryBounds(opts, o, next, Keys(claimed));
      AliasEnd(opts, o + 1);
      curGroup := NextGroup(opts[o], curGroup);
      var e := HolEntry(path, opts[o..next], so, curGroup, cluster);
      assert |entries| < numEntries;
      Shift(entries, e, MakeFrom(path, opts[next..], cluster, curGroup, shorts[..so1]).entries);
      entries, o, so := entries + [e], next, so1;
    }
    MakeEnd(path, opts[o..], cluster, curGroup, shorts[..so]);
    shorts[so] := 0;
    assert |entries| == numEntries;
    h := Hol(entries, shorts[..so]);
  }

  lemma Shift<T>(a: seq<T>, x: T, b: seq<T>)
    ensures (a + [x]) + b == a + ([x] + b)
  {
  }

  lemma MakeEnd(path: Path, opts: seq<Opt>, cluster: Option<Cluster>, cur: int, shorts: seq<int>)
    requires opts == []
    ensures MakeFrom(path, opts, cluster, cur, shorts) == Hol([], shorts)
    ensures CountEntries(opts) == 0
  {
  }

  lemma {:induction false} AliasEnd(opts: seq<Opt>, o: nat)
    requires o <= |opts|
    ensures var k := o + AliasRun(opts[o..]); k < |opts| ==> !opts[k].alias
    decreases |opts| - o
  {
    if o < |opts| && opts[o].alias {
      assert opts[o..][1..] == opts[o + 1..];
      AliasEnd(opts, o + 1);
    }
  }

  /** What one entry leaves of the space computed for entries and short options. */
  lemma EntryBounds(opts: seq<Opt>, o: nat, next: nat, claimed: set<int>)
    requires o < |opts| && !opts[o].alias && next == o + 1 + AliasRun(opts[o + 1..])
    ensures next <= |opts| && CountEntries(opts[o..]) == 1 + CountEntries(opts[next..])
    ensures |Fresh(opts[o..next], claimed)| + CountShorts(opts[next..]) <= CountShorts(opts[o..])
  {
    assert opts[o..][1..] == opts[o + 1..];
    RunCounts(opts[o + 1..], next - o - 1);
    assert opts[o + 1..][next - o - 1..] == opts[next..];
    RunBound(opts[o..], next - o, claimed);
    assert opts[o..][..next - o] == opts[o..next] && opts[o..][next - o..] == opts[next..];
  }

  lemma WalkStep(shadowed: set<int>, opts: seq<Opt>, i: nat, so: seq<int>, pos: nat)
    requires i < |opts| && pos <= |so|
    ensures Walk(shadowed, opts[i..], so[pos..])
         == if IsShort(opts[i]) && pos < |so| && so[pos] == opts[i].key then
              var (kept, left) := Walk(shadowed, opts[i + 1..], so[pos + 1..]);
              (if so[pos] in shadowed then kept else [so[pos]] + kept, left)
            else Walk(shadowed, opts[i + 1..], so[pos..])
  {
    assert opts[i..][1..] == opts[i + 1..];
    assert pos < |so| ==> so[pos..][1..] == so[pos + 1..];
  }

  lemma WalkEnd(shadowed: set<int>, opts: seq<Opt>, so: seq<int>)
    requires opts == []
    ensures Walk(shadowed, opts, so) == ([], so)
  {
  }

  /** One entry of the appended list: its options along its old stretch, unshadowed ones written at `so0`. */
  method MoveEntry(opts: seq<Opt>, moreShorts: seq<int>, pos0: nat, a: array<int>, holLen: nat, so0: nat)
    returns (pos: nat, so: nat)
    requires pos0 <= |moreShorts| && holLen <= so0 && so0 + (|moreShorts| - pos0) <= a.Length
    modifies a
    ensures pos <= |moreShorts| && so0 <= so && so + (|moreShorts| - pos) <= so0 + (|moreShorts| - pos0)
    ensures a[..holLen] == old(a[..holLen])
    ensures var (kept, left) := Walk(Keys(old(a[..holLen])), opts, moreShorts[pos0..]);
      a[..so] == old(a[..so0]) + kept && moreShorts[pos..] == left
  {
    hide Walk;
    ghost var hol := a[..holLen];
    ghost var target := Walk(Keys(hol), opts, moreShorts[pos0..]);
    so, pos := so0, pos0;
    var i := 0;
    assert opts[0..] == opts;
    while i < |opts|
      invariant i <= |opts| && pos <= |moreShorts| && so0 <= so && so + (|moreShorts| - pos) <= so0 + (|moreShorts| - pos0)
      invariant a[..holLen] == hol
      invariant var (kept, left) := Walk(Keys(hol), opts[i..], moreShorts[pos..]);
        old(a[..so0]) + target.0 == a[..so] + kept && target.1 == left
    {
      WalkStep(Keys(hol), opts, i, moreShorts, pos);
      if IsShort(opts[i]) && pos < |moreShorts| && moreShorts[pos] == opts[i].key {
        ghost var kept := Walk(Keys(hol), opts[i + 1..], moreShorts[pos + 1..]).0;
        var ch := moreShorts[pos];
        var found := FindChar(ch, a, holLen);
        if !found {
          ghost var written := a[..so];
          a[so] := ch;
          so := so + 1;
          assert a[..so] == written + [ch];
          assert written + ([ch] + kept) == (written + [ch]) + kept;
          assert a[..holLen] == written[..holLen];
        }
        pos := pos + 1;
      }
      i := i + 1;
    }
    WalkEnd(Keys(hol), opts[i..], moreShorts[pos..]);
  }

  lemma AppendStep(shadowed: set<int>, more: seq<HolEntry>, i: nat, so: seq<int>, shorts: seq<int>)
    requires i < |more|
    ensures var (kept, left) := Walk(shadowed, more[i].opts, so);
      var rest := AppendFrom(shadowed, more[i + 1..], left, shorts + kept);
      AppendFrom(shadowed, more[i..], so, shorts) == Hol([more[i].(so := |shorts|)] + rest.entries, rest.shorts)
  {
    hide Walk;
    assert more[i..][1..] == more[i + 1..];
  }

  lemma AppendEnd(shadowed: set<int>, more: seq<HolEntry>, so: seq<int>, shorts: seq<int>)
    ensures AppendFrom(shadowed, more[|more|..], so, shorts) == Hol([], shorts)
  {
  }

  /** The second loop of `hol_append`: the entries of `more` and their short options, behind those of the first list. */
  method MoveEntries(more: Hol, a: array<int>, holLen: nat) returns (moved: seq<HolEntry>, so: nat)
    requires holLen + |more.shorts| < a.Length
    modifies a
    ensures so < a.Length
    ensures Hol(moved, a[..so]) == AppendFrom(Keys(old(a[..holLen])), more.entries, more.shorts, old(a[..holLen]))
  {
    ghost var hol := a[..holLen];
    ghost var target := AppendFrom(Keys(hol), more.entries, more.shorts, hol);
    assert more.entries[0..] == more.entries && more.shorts[0..] == more.shorts;
    hide AppendFrom, Walk, Keys;
    so, moved := holLen, [];
    var pos, i := 0, 0;
    while i < |more.entries|
      invariant i <= |more.entries| && pos <= |more.shorts| && holLen <= so
      invariant so + (|more.shorts| - pos) < a.Length
      invariant a[..holLen] == hol
      invariant var rest := AppendFrom(Keys(hol), more.entries[i..], more.shorts[pos..], a[..so]);
        target == Hol(moved + rest.entries, rest.shorts)
    {
      AppendStep(Keys(hol), more.entries, i, more.shorts[pos..], a[..so]);
      var e := more.entries[i].(so := so);
      var pos1, so1 := MoveEntry(more.entries[i].opts, more.shorts, pos, a, holLen, so);
      ghost var rest := AppendFrom(Keys(hol), more.entries[i + 1..], more.shorts[pos1..], a[..so1]);
      assert (moved + [e]) + rest.entries == moved + ([e] + rest.entries);
      moved, i, pos, so := moved + [e], i + 1, pos1, so1;
    }
    AppendEnd(Keys(hol), more.entries, more.shorts[pos..], a[..so]);
  }

  /** `hol_append`. */
  method HolAppend(h: Hol, more: Hol) returns (r: Hol)
    ensures r == Append(h, more)
  {
    if more.entries == [] {
      return h;
    }
    if h.entries == [] {
      return more;
    }
    var holLen := |h.shorts|;
    var shorts := new int[holLen + |more.shorts| + 1](i => if 0 <= i < holLen then h.shorts[i] else 0);
    assert shorts[..holLen] == h.shorts;
    hide AppendFrom;
    var moved, so := MoveEntries(more, shorts, holLen);
    shorts[so] := 0;
    r := Hol(h.entries + moved, shorts[..so]);
  }

  /** The assertion `make_hol` makes about its list, over a whole tree. */
  predicate NoLeadingAlias(a: Argp) {
    && (OptionsOf(a) != [] ==> !OptionsOf(a)[0].alias)
    && forall c :: c in a.children ==> NoLeadingAliasChild(c)
  }

  predicate NoLeadingAliasChild(c: Child) {
    NoLeadingAlias(c.argp)
  }

  /** `argp_hol`. */
  method BuildHol(a: Argp, path: Path, cluster: Option<Cluster>) returns (h: Hol)
    requires NoLeadingAlias(a)
    ensures h == TreeHol(a, path, cluster)
    decreases a, 0
  {
    h := MakeHol(path, a.options, cluster);
    var i := 0;
    assert a.children[0..] == a.children;
    while i < |a.children|
      invariant i <= |a.children|
      invariant AddChildren(h, a.children[i..], path, i, cluster) == TreeHol(a, path, cluster)
    {
      assert a.children[i..][1..] == a.children[i + 1..];
      assert NoLeadingAliasChild(a.children[i]);
      var more := BuildChild(a.children[i], path, i, cluster);
      h := HolAppend(h, more);
      i := i + 1;
    }
  }

  method BuildChild(child: Child, path: Path, i: nat, cluster: Option<Cluster>) returns (h: Hol)
    requires NoLeadingAliasChild(child)
    ensures h == ChildHol(child, path, i, cluster)
    decreases child, 0
  {
    var childCluster := if child.group != 0 || child.header then Some(Cluster(path + [i], child.group, i, cluster)) else cluster;
    h := BuildHol(child.argp, path + [i], childCluster);
  }
}
