/**
 Translating select's bitmasks to the descriptors underneath and back. An `fd_set` is the
 set of descriptors whose bit is set.
 */
module FdSelect {
  import opened Options
  import opened FdTypes

  /** What one bitmask translates to: per handled kind the bound and the bits underneath,
      per other kind the entries, and the way back. */
  datatype Masks = Masks(bits: map<nat, (nat, set<nat>)>, unparsed: map<nat, set<Entry>>, mapping: map<Key, nat>)

  /** `NoCage` is the panic over an unknown cage. */
  datatype Prepared = Ready(masks: Masks) | Refused(errno: Errno) | NoCage
  datatype AllPrepared = AllReady(r: Masks, w: Masks, e: Masks, mapping: map<Key, nat>) | AllRefused(err: Errno) | AllNoCage

  /** `LookupFailed` is the panic over a bit that is not in the mapping table. */
  datatype Virtual = Virtual(flagsset: nat, bits: Option<set<nat>>) | TooLarge | LookupFailed

  // ---- what a translation should be ----

  /** The descriptors a caller asks about: those below `nfds`. */
  function Requested(bits: Option<set<nat>>, nfds: nat): set<nat> {
    if bits.None? then {} else set v | v in bits.value && v < nfds
  }

  function OfKind(row: Row, req: set<nat>, k: nat): set<nat> {
    set v | v in req && v in row && row[v].fdkind == k
  }

  function UnderBits(row: Row, req: set<nat>, k: nat): set<nat> {
    set v | v in OfKind(row, req, k) :: row[v].underfd
  }

  function EntriesUnder(row: Row, req: set<nat>, k: nat): set<Entry> {
    set v | v in OfKind(row, req, k) :: row[v]
  }

  /** The mapping answers with the largest requested descriptor behind each key. */
  ghost predicate MapsBack(row: Row, req: set<nat>, mapping: map<Key, nat>) {
    && (forall v :: v in req && v in row ==> KeyOf(row[v]) in mapping && v <= mapping[KeyOf(row[v])])
    && (forall k :: k in mapping ==> mapping[k] in req && mapping[k] in row && KeyOf(row[mapping[k]]) == k)
  }

  /** A handled kind gets exactly the bits underneath, and the smallest bound above them. */
  ghost predicate BitsFor(row: Row, req: set<nat>, k: nat, entry: (nat, set<nat>)) {
    && entry.1 == UnderBits(row, req, k)
    && (forall u :: u in entry.1 ==> u < entry.0)
    && entry.0 > 0 && entry.0 - 1 in entry.1
  }

  /** Everything about one kind: it is translated if handled, and listed if not. */
  ghost predicate KindOk(row: Row, req: set<nat>, kinds: set<nat>, m: Masks, k: nat) {
    var asked := OfKind(row, req, k) != {};
    && (k in m.bits <==> asked && k in kinds)
    && (k in m.bits ==> BitsFor(row, req, k, m.bits[k]))
    && (k in m.unparsed <==> asked && k !in kinds)
    && (k in m.unparsed ==> m.unparsed[k] == EntriesUnder(row, req, k))
  }

  ghost predicate Translates(row: Row, req: set<nat>, kinds: set<nat>, m: Masks) {
    (forall k: nat :: KindOk(row, req, kinds, m, k)) && MapsBack(row, req, m.mapping)
  }

  // ---- one more descriptor ----

  lemma Grow(row: Row, req: set<nat>, v: nat, k: nat)
    requires v in row
    ensures OfKind(row, req + {v}, k) == if row[v].fdkind == k then OfKind(row, req, k) + {v} else OfKind(row, req, k)
    ensures UnderBits(row, req + {v}, k)
         == if row[v].fdkind == k then UnderBits(row, req, k) + {row[v].underfd} else UnderBits(row, req, k)
    ensures EntriesUnder(row, req + {v}, k)
         == if row[v].fdkind == k then EntriesUnder(row, req, k) + {row[v]} else EntriesUnder(row, req, k)
    ensures OfKind(row, req, k) == {} ==> UnderBits(row, req, k) == {} && EntriesUnder(row, req, k) == {}
  {
  }

  function WithBit(m: Masks, e: Entry, v: nat): Masks {
    var (nfds, bits) := if e.fdkind in m.bits then m.bits[e.fdkind] else (1, {});
    var nfds1 := if nfds > e.underfd + 1 then nfds else e.underfd + 1;
    Masks(m.bits[e.fdkind := (nfds1, bits + {e.underfd})], m.unparsed, m.mapping[KeyOf(e) := v])
  }

  function WithEntry(m: Masks, e: Entry, v: nat): Masks {
    var kept := if e.fdkind in m.unparsed then m.unparsed[e.fdkind] else {};
    Masks(m.bits, m.unparsed[e.fdkind := kept + {e}], m.mapping[KeyOf(e) := v])
  }

  function With(m: Masks, e: Entry, v: nat, kinds: set<nat>): Masks {
    if e.fdkind in kinds then WithBit(m, e, v) else WithEntry(m, e, v)
  }

  lemma MapsOn(row: Row, req: set<nat>, mapping: map<Key, nat>, v: nat)
    requires MapsBack(row, req, mapping) && v in row && forall x :: x in req ==> x < v
    ensures MapsBack(row, req + {v}, mapping[KeyOf(row[v]) := v])
  {
  }

  lemma StepAt(row: Row, req: set<nat>, kinds: set<nat>, m: Masks, v: nat, k: nat)
    requires KindOk(row, req, kinds, m, k) && v in row
    ensures KindOk(row, req + {v}, kinds, With(m, row[v], v, kinds), k)
  {
    Grow(row, req, v, k);
    var m1 := With(m, row[v], v, kinds);
    if k == row[v].fdkind && k in kinds {
      BitsStep(row, req, kinds, m, v);
      hide WithBit, BitsFor;
    }
    hide OfKind, UnderBits, EntriesUnder;
  }

  /** The bits and the bound of the descriptor's own kind. */
  lemma BitsStep(row: Row, req: set<nat>, kinds: set<nat>, m: Masks, v: nat)
    requires v in row && row[v].fdkind in kinds && KindOk(row, req, kinds, m, row[v].fdkind)
    ensures var k, m1 := row[v].fdkind, WithBit(m, row[v], v);
      && k in m1.bits && BitsFor(row, req + {v}, k, m1.bits[k]) && m1.unparsed == m.unparsed
      && OfKind(row, req + {v}, k) != {}
  {
    Grow(row, req, v, row[v].fdkind);
    hide OfKind, UnderBits, EntriesUnder;
  }

  lemma Step(row: Row, req: set<nat>, kinds: set<nat>, m: Masks, v: nat)
    requires Translates(row, req, kinds, m) && v in row && forall x :: x in req ==> x < v
    ensures Translates(row, req + {v}, kinds, With(m, row[v], v, kinds))
  {
    MapsOn(row, req, m.mapping, v);
    hide KindOk, MapsBack;
    var m1 := With(m, row[v], v, kinds);
    forall k: nat ensures KindOk(row, req + {v}, kinds, m1, k) {
      StepAt(row, req, kinds, m, v, k);
    }
  }

  lemma Nothing(row: Row, kinds: set<nat>)
    ensures Translates(row, {}, kinds, Masks(map[], map[], map[]))
  {
    forall k: nat ensures OfKind(row, {}, k) == {} {}
  }

  lemma NextBit(bits: Option<set<nat>>, pos: nat)
    ensures Requested(bits, pos + 1)
         == if bits.Some? && pos in bits.value then Requested(bits, pos) + {pos} else Requested(bits, pos)
    ensures forall x :: x in Requested(bits, pos) ==> x < pos
  {
  }

  // ---- before select ----

  /** The argument is checked before the cage, and the cage before anything else. */
  method GetBitmaskForSelect(rows: map<nat, Row>, cageid: nat, nfds: nat, bits: Option<set<nat>>, fdkinds: set<nat>)
    returns (r: Prepared)
    ensures nfds >= FD_PER_PROCESS_MAX ==> r == Refused(EINVAL)
    ensures nfds < FD_PER_PROCESS_MAX && cageid !in rows ==> r == NoCage
    ensures nfds < FD_PER_PROCESS_MAX && cageid in rows ==>
      var req, row := Requested(bits, nfds), rows[cageid];
      if req <= row.Keys then r.Ready? && Translates(row, req, fdkinds, r.masks) else r == Refused(EBADF)
  {
    if nfds >= FD_PER_PROCESS_MAX {
      return Refused(EINVAL);
    }
    if cageid !in rows {
      return NoCage;
    }
    var row := rows[cageid];
    var m := Masks(map[], map[], map[]);
    Nothing(row, fdkinds);
    if bits.None? {
      return Ready(m);
    }
    assert Requested(bits, 0) == {};
    hide Translates;
    var bit := 0;
    while bit < nfds
      invariant bit <= nfds
      invariant Requested(bits, bit) <= row.Keys && Translates(row, Requested(bits, bit), fdkinds, m)
    {
      NextBit(bits, bit);
      if bit in bits.value {
        if bit !in row {
          assert bit in Requested(bits, nfds);
          return Refused(EBADF);
        }
        Step(row, Requested(bits, bit), fdkinds, m, bit);
        var entry := row[bit];
        if entry.fdkind !in fdkinds {
          m := WithEntry(m, entry, bit);
        } else {
          m := WithBit(m, entry, bit);
        }
      }
      bit := bit + 1;
    }
    r := Ready(m);
  }

  method PrepareBitmasksForSelect(rows: map<nat, Row>, cageid: nat, nfds: nat, rbits: Option<set<nat>>,
                                  wbits: Option<set<nat>>, ebits: Option<set<nat>>, fdkinds: set<nat>) returns (p: AllPrepared)
    ensures nfds >= FD_PER_PROCESS_MAX ==> p == AllRefused(EINVAL)
    ensures nfds < FD_PER_PROCESS_MAX && cageid !in rows ==> p == AllNoCage
    ensures nfds < FD_PER_PROCESS_MAX && cageid in rows ==>
      var r, w, e, row := Requested(rbits, nfds), Requested(wbits, nfds), Requested(ebits, nfds), rows[cageid];
      if r + w + e <= row.Keys then
        && p.AllReady? && Translates(row, r, fdkinds, p.r) && Translates(row, w, fdkinds, p.w)
        && Translates(row, e, fdkinds, p.e) && p.mapping == p.r.mapping + p.w.mapping + p.e.mapping
      else p == AllRefused(EBADF)
  {
    hide Translates;
    var r := GetBitmaskForSelect(rows, cageid, nfds, rbits, fdkinds);
    if !r.Ready? {
      return if r.Refused? then AllRefused(r.errno) else AllNoCage;
    }
    var w := GetBitmaskForSelect(rows, cageid, nfds, wbits, fdkinds);
    if !w.Ready? {
      return if w.Refused? then AllRefused(w.errno) else AllNoCage;
    }
    var e := GetBitmaskForSelect(rows, cageid, nfds, ebits, fdkinds);
    if !e.Ready? {
      return if e.Refused? then AllRefused(e.errno) else AllNoCage;
    }
    p := AllReady(r.masks, w.masks, e.masks, r.masks.mapping + w.masks.mapping + e.masks.mapping);
  }

  // ---- after select ----

  ghost function Image(mapping: map<Key, nat>, k: nat, bits: set<nat>): set<nat> {
    set u | u in bits && Key(k, u) in mapping :: mapping[Key(k, u)]
  }

  lemma ImageStep(mapping: map<Key, nat>, k: nat, bits: set<nat>, u: nat)
    requires Key(k, u) in mapping
    ensures Image(mapping, k, bits + {u}) == Image(mapping, k, bits) + {mapping[Key(k, u)]}
  {
  }

  ghost predicate AllMapped(mapping: map<Key, nat>, fdkind: nat, ready: set<nat>) {
    forall u :: u in ready ==> Key(fdkind, u) in mapping
  }

  /** What comes back: the reported bits mapped back and the unprocessed descriptors, and how many are new. */
  ghost function MappedBack(fdkind: nat, nfds: nat, bits: Option<set<nat>>, unprocessed: set<nat>,
                            startingbits: Option<set<nat>>, mapping: map<Key, nat>): Virtual {
    var ready := Requested(bits, nfds);
    var start := if startingbits.Some? then startingbits.value else {};
    var all := start + Image(mapping, fdkind, ready) + unprocessed;
    if nfds >= FD_PER_PROCESS_MAX then TooLarge
    else if bits.None? && unprocessed == {} then Virtual(0, None)
    else if !AllMapped(mapping, fdkind, ready) then LookupFailed
    else Virtual(|all - start|, Some(all))
  }

  /** `flagsset` counts exactly the bits that were not set before. */
  method GetOneVirtualBitmask(fdkind: nat, nfds: nat, bits: Option<set<nat>>, unprocessed: set<nat>,
                              startingbits: Option<set<nat>>, mapping: map<Key, nat>) returns (r: Virtual)
    ensures r == MappedBack(fdkind, nfds, bits, unprocessed, startingbits, mapping)
  {
    if nfds >= FD_PER_PROCESS_MAX {
      return TooLarge;
    }
    if bits.None? && unprocessed == {} {
      return Virtual(0, None);
    }
    var start: set<nat> := if startingbits.Some? then startingbits.value else {};
    var flags, ret := 0, start;
    if bits.Some? {
      var ok;
      ok, flags, ret := MapBits(fdkind, nfds, bits, start, mapping);
      if !ok {
        return LookupFailed;
      }
    } else {
      NothingAsked(fdkind, nfds, bits, mapping);
    }
    hide Image, Requested, AllMapped;
    flags, ret := AddVirtual(flags, ret, unprocessed, start);
    r := Virtual(flags, Some(ret));
  }

  lemma NothingAsked(fdkind: nat, nfds: nat, bits: Option<set<nat>>, mapping: map<Key, nat>)
    requires bits.None?
    ensures Image(mapping, fdkind, Requested(bits, nfds)) == {} && AllMapped(mapping, fdkind, Requested(bits, nfds))
  {
  }

  /** The bits select reported, mapped back one by one. */
  method MapBits(fdkind: nat, nfds: nat, bits: Option<set<nat>>, start: set<nat>, mapping: map<Key, nat>)
    returns (ok: bool, flags: nat, ret: set<nat>)
    requires bits.Some?
    ensures ok <==> AllMapped(mapping, fdkind, Requested(bits, nfds))
    ensures ok ==> ret == start + Image(mapping, fdkind, Requested(bits, nfds)) && flags == |ret - start|
  {
    flags, ret := 0, start;
    var pos := 0;
    NoneMapped(fdkind, bits, mapping);
    hide Image, Requested, AllMapped;
    while pos < nfds
      invariant pos <= nfds
      invariant AllMapped(mapping, fdkind, Requested(bits, pos))
      invariant ret == start + Image(mapping, fdkind, Requested(bits, pos)) && flags == |ret - start|
    {
      MapStep(fdkind, nfds, bits, mapping, pos);
      if pos in bits.value {
        if Key(fdkind, pos) !in mapping {
          return false, flags, ret;
        }
        flags, ret := SetBit(flags, ret, mapping[Key(fdkind, pos)], start);
      }
      pos := pos + 1;
    }
    ok := true;
  }

  lemma NoneMapped(fdkind: nat, bits: Option<set<nat>>, mapping: map<Key, nat>)
    ensures Image(mapping, fdkind, Requested(bits, 0)) == {} && AllMapped(mapping, fdkind, Requested(bits, 0))
  {
  }

  /** One more position: its bit, if set, is mapped, or the lookup fails. */
  lemma MapStep(fdkind: nat, nfds: nat, bits: Option<set<nat>>, mapping: map<Key, nat>, pos: nat)
    requires bits.Some? && pos < nfds && AllMapped(mapping, fdkind, Requested(bits, pos))
    ensures pos !in bits.value ==> Requested(bits, pos + 1) == Requested(bits, pos)
    ensures pos in bits.value && Key(fdkind, pos) in mapping ==>
      && AllMapped(mapping, fdkind, Requested(bits, pos + 1))
      && Image(mapping, fdkind, Requested(bits, pos + 1)) == Image(mapping, fdkind, Requested(bits, pos)) + {mapping[Key(fdkind, pos)]}
    ensures pos in bits.value && Key(fdkind, pos) !in mapping ==> !AllMapped(mapping, fdkind, Requested(bits, nfds))
  {
    NextBit(bits, pos);
    if pos in bits.value {
      assert pos in Requested(bits, nfds);
      if Key(fdkind, pos) in mapping {
        ImageStep(mapping, fdkind, Requested(bits, pos), pos);
      }
    }
  }

  /** The descriptors the caller handled itself. */
  method AddVirtual(flags0: nat, ret0: set<nat>, unprocessed: set<nat>, ghost start: set<nat>)
    returns (flags: nat, ret: set<nat>)
    requires start <= ret0 && flags0 == |ret0 - start|
    ensures ret == ret0 + unprocessed && flags == |ret - start|
  {
    flags, ret := flags0, ret0;
    var left := unprocessed;
    while left != {}
      invariant left <= unprocessed && ret == ret0 + (unprocessed - left) && flags == |ret - start|
    {
      var virtfd :| virtfd in left;
      flags, ret := SetBit(flags, ret, virtfd, start);
      left := left - {virtfd};
    }
  }

  method SetBit(flags: nat, ret: set<nat>, v: nat, ghost start: set<nat>) returns (flags1: nat, ret1: set<nat>)
    requires start <= ret && flags == |ret - start|
    ensures ret1 == ret + {v} && flags1 == |ret1 - start|
  {
    if v !in ret {
      flags1, ret1 := flags + 1, ret + {v};
      assert ret1 - start == (ret - start) + {v};
    } else {
      flags1, ret1 := flags, ret;
      assert ret + {v} == ret;
    }
  }

  // ---- there and back ----

  /** The largest of a set's descriptors behind a key, if any. */
  ghost predicate Largest(row: Row, req: set<nat>, k: Key, v: nat) {
    && v in req && v in row && KeyOf(row[v]) == k
    && forall x :: x in req && x in row && KeyOf(row[x]) == k ==> x <= v
  }

  ghost predicate Holds(row: Row, req: set<nat>, k: Key) {
    exists v :: v in req && v in row && KeyOf(row[v]) == k
  }

  /** `v` is the descriptor that answers for its key: the largest of the last set that has it. */
  ghost predicate Answers(row: Row, r: set<nat>, w: set<nat>, e: set<nat>, v: nat)
    requires v in row
  {
    var k := KeyOf(row[v]);
    if Holds(row, e, k) then Largest(row, e, k, v)
    else if Holds(row, w, k) then Largest(row, w, k, v)
    else Largest(row, r, k, v)
  }

  /** The merged table answers with `v` exactly when `v` is the one to answer for its key. */
  lemma WhoAnswers(row: Row, r: set<nat>, w: set<nat>, e: set<nat>, rm: map<Key, nat>, wm: map<Key, nat>, em: map<Key, nat>, v: nat)
    requires MapsBack(row, r, rm) && MapsBack(row, w, wm) && MapsBack(row, e, em)
    requires v in row && v in r + w + e
    ensures var k := KeyOf(row[v]); k in rm + wm + em && ((rm + wm + em)[k] == v <==> Answers(row, r, w, e, v))
  {
    var k := KeyOf(row[v]);
    assert k in em <==> Holds(row, e, k);
    assert k in wm <==> Holds(row, w, k);
    assert k in rm <==> Holds(row, r, k);
  }

  /** The requested descriptors of one kind whose bit underneath is in `ready`. */
  function Expected(row: Row, req: set<nat>, k: nat, ready: set<nat>): set<nat> {
    set v | v in OfKind(row, req, k) && row[v].underfd in ready
  }

  /**
   Select round trip. `req` is one of the three requested sets, `mapping` the merged table.
   Looking bits up never fails; and whatever subset of the prepared bits select reports, the
   virtual descriptors that come back are exactly the requested ones with their bit set, if and
   only if each requested descriptor of the kind is the one that answers for its key.
   */
  lemma SelectRoundTrip(row: Row, r: set<nat>, w: set<nat>, e: set<nat>, req: set<nat>, kinds: set<nat>, k: nat,
                        rm: Masks, wm: Masks, em: Masks, m: Masks)
    requires Translates(row, r, kinds, rm) && Translates(row, w, kinds, wm) && Translates(row, e, kinds, em)
    requires (req == r && m == rm) || (req == w && m == wm) || (req == e && m == em)
    requires k in m.bits
    ensures var mapping := rm.mapping + wm.mapping + em.mapping;
      && (forall u :: u in m.bits[k].1 ==> Key(k, u) in mapping)
      && ((forall ready :: ready <= m.bits[k].1 ==> Image(mapping, k, ready) == Expected(row, req, k, ready))
          <==> (forall v :: v in OfKind(row, req, k) ==> Answers(row, r, w, e, v)))
  {
    var mapping := rm.mapping + wm.mapping + em.mapping;
    assert KindOk(row, req, kinds, m, k);
    forall v | v in OfKind(row, req, k)
      ensures KeyOf(row[v]) == Key(k, row[v].underfd) && row[v].underfd in m.bits[k].1
      ensures Key(k, row[v].underfd) in mapping
      ensures mapping[Key(k, row[v].underfd)] == v <==> Answers(row, r, w, e, v)
    {
      WhoAnswers(row, r, w, e, rm.mapping, wm.mapping, em.mapping, v);
    }
    hide Answers, Translates, KindOk;
    if forall v :: v in OfKind(row, req, k) ==> Answers(row, r, w, e, v) {
      forall ready | ready <= m.bits[k].1 ensures Image(mapping, k, ready) == Expected(row, req, k, ready) {
        ImageIsExpected(row, req, k, ready, mapping);
      }
    } else {
      var v :| v in OfKind(row, req, k) && !Answers(row, r, w, e, v);
      OneBitBack(row, req, k, mapping, v);
      var ready := {row[v].underfd};
      assert ready <= m.bits[k].1;
    }
  }

  /** If another descriptor answers for `v`, reporting the bit of `v` alone brings the wrong one back. */
  lemma OneBitBack(row: Row, req: set<nat>, k: nat, mapping: map<Key, nat>, v: nat)
    requires v in OfKind(row, req, k) && Key(k, row[v].underfd) in mapping
    requires mapping[Key(k, row[v].underfd)] != v
    ensures Image(mapping, k, {row[v].underfd}) != Expected(row, req, k, {row[v].underfd})
  {
    assert Image(mapping, k, {row[v].underfd}) == {mapping[Key(k, row[v].underfd)]};
    assert v in Expected(row, req, k, {row[v].underfd});
  }

  lemma ImageIsExpected(row: Row, req: set<nat>, k: nat, ready: set<nat>, mapping: map<Key, nat>)
    requires ready <= UnderBits(row, req, k)
    requires forall v :: v in OfKind(row, req, k) ==>
      Key(k, row[v].underfd) in mapping && mapping[Key(k, row[v].underfd)] == v
    ensures Image(mapping, k, ready) == Expected(row, req, k, ready)
  {
    forall u | u in ready ensures mapping[Key(k, u)] in Expected(row, req, k, ready) {
      var v :| v in OfKind(row, req, k) && row[v].underfd == u;
    }
  }

  /** Pairwise distinct keys behind the requested descriptors are enough for the way back. */
  lemma DistinctKeysAnswer(row: Row, r: set<nat>, w: set<nat>, e: set<nat>, v: nat)
    requires v in row && v in r + w + e
    requires forall x, y :: x in r + w + e && y in r + w + e && x in row && y in row && KeyOf(row[x]) == KeyOf(row[y]) ==> x == y
    ensures Answers(row, r, w, e, v)
  {
    var k := KeyOf(row[v]);
    assert v in e ==> Holds(row, e, k);
    assert v in w ==> Holds(row, w, k);
  }

  /** Prepared bounds stay below the table size exactly when every descriptor underneath leaves room. */
  lemma BoundFits(row: Row, req: set<nat>, kinds: set<nat>, m: Masks, k: nat)
    requires Translates(row, req, kinds, m) && k in m.bits
    ensures m.bits[k].0 < FD_PER_PROCESS_MAX
      <==> forall v :: v in OfKind(row, req, k) ==> row[v].underfd < FD_PER_PROCESS_MAX - 1
  {
    assert KindOk(row, req, kinds, m, k);
    assert forall v :: v in OfKind(row, req, k) ==> row[v].underfd in m.bits[k].1;
  }

  /**
   The calls there and back: with the bound and the mapping that were prepared, whatever part of
   the prepared bits select reports, the call returns exactly the requested descriptors with
   their bit set and how many they are, if and only if each of them answers for its key and has a
   descriptor underneath that leaves room for the bound.
   */
  lemma CallsRoundTrip(row: Row, r: set<nat>, w: set<nat>, e: set<nat>, req: set<nat>, kinds: set<nat>, k: nat,
                       rm: Masks, wm: Masks, em: Masks, m: Masks)
    requires Translates(row, r, kinds, rm) && Translates(row, w, kinds, wm) && Translates(row, e, kinds, em)
    requires (req == r && m == rm) || (req == w && m == wm) || (req == e && m == em)
    requires k in m.bits
    ensures var mapping := rm.mapping + wm.mapping + em.mapping;
      (forall ready :: ready <= m.bits[k].1 ==>
         var x := Expected(row, req, k, ready);
         MappedBack(k, m.bits[k].0, Some(ready), {}, None, mapping) == Virtual(|x|, Some(x)))
      <==> (forall v :: v in OfKind(row, req, k) ==> Answers(row, r, w, e, v) && row[v].underfd + 1 < FD_PER_PROCESS_MAX)
  {
    var mapping := rm.mapping + wm.mapping + em.mapping;
    SelectRoundTrip(row, r, w, e, req, kinds, k, rm, wm, em, m);
    BoundFits(row, req, kinds, m, k);
    assert KindOk(row, req, kinds, m, k);
    assert BitsFor(row, req, k, m.bits[k]);
    var bound := m.bits[k].0;
    hide Translates, KindOk, Answers, OfKind, Expected, MappedBack;
    forall ready | ready <= m.bits[k].1
      ensures if bound >= FD_PER_PROCESS_MAX then MappedBack(k, bound, Some(ready), {}, None, mapping) == TooLarge
              else (var x := Expected(row, req, k, ready);
                MappedBack(k, bound, Some(ready), {}, None, mapping) == Virtual(|x|, Some(x)) <==> Image(mapping, k, ready) == x)
    {
      BackFromBits(k, bound, ready, Expected(row, req, k, ready), mapping);
    }
    if bound >= FD_PER_PROCESS_MAX {
      var none: set<nat> := {};
      assert none <= m.bits[k].1;
    }
  }

  lemma BackFromBits(k: nat, bound: nat, ready: set<nat>, x: set<nat>, mapping: map<Key, nat>)
    requires (forall u :: u in ready ==> u < bound) && AllMapped(mapping, k, ready)
    ensures if bound >= FD_PER_PROCESS_MAX then MappedBack(k, bound, Some(ready), {}, None, mapping) == TooLarge
            else MappedBack(k, bound, Some(ready), {}, None, mapping) == Virtual(|x|, Some(x)) <==> Image(mapping, k, ready) == x
  {
    assert Requested(Some(ready), bound) == ready;
    var all := {} + Image(mapping, k, ready) + {};
    assert all == Image(mapping, k, ready) && all - {} == all;
  }

  /** Two requested descriptors behind one key: only the larger comes back. */
  lemma SharedKeyLosesOne(entry: Entry)
    ensures var row, k, u := map[0 := entry, 1 := entry], entry.fdkind, entry.underfd;
      var m := Masks(map[k := (u + 1, {u})], map[], map[Key(k, u) := 1]);
      && Translates(row, {0, 1}, {k}, m)
      && Image(m.mapping, k, {u}) == {1} && Expected(row, {0, 1}, k, {u}) == {0, 1}
  {
    var row, k, u := map[0 := entry, 1 := entry], entry.fdkind, entry.underfd;
    var m := Masks(map[k := (u + 1, {u})], map[], map[Key(k, u) := 1]);
    assert 0 in OfKind(row, {0, 1}, k) && OfKind(row, {0, 1}, k) == {0, 1};
    assert u in UnderBits(row, {0, 1}, k) && UnderBits(row, {0, 1}, k) == {u};
    forall j: nat ensures KindOk(row, {0, 1}, {k}, m, j) {
      if j != k {
        assert OfKind(row, {0, 1}, j) == {};
      } else {
        assert BitsFor(row, {0, 1}, k, m.bits[k]);
      }
    }
    assert Key(k, u) in m.mapping;
  }

  // ---- one request, mapped back kind by kind ----

  /** What one call on the way back is given: the bits reported for a kind and the descriptors handled otherwise. */
  datatype Report = Report(fdkind: nat, nfds: nat, bits: Option<set<nat>>, unprocessed: set<nat>)

  predicate Silent(r: Report) {
    r.bits.None? && r.unprocessed == {}
  }

  ghost predicate Acceptable(r: Report, mapping: map<Key, nat>) {
    r.nfds < FD_PER_PROCESS_MAX && AllMapped(mapping, r.fdkind, Requested(r.bits, r.nfds))
  }

  /** The calls one after the other, each starting from the bits of the one before; the counts are added up. */
  ghost function Gather(rs: seq<Report>, mapping: map<Key, nat>): Virtual {
    if rs == [] then Virtual(0, None)
    else
      var before, r := Gather(rs[..|rs| - 1], mapping), rs[|rs| - 1];
      if !before.Virtual? then before
      else
        var now := MappedBack(r.fdkind, r.nfds, r.bits, r.unprocessed, before.bits, mapping);
        if now.Virtual? then now.(flagsset := before.flagsset + now.flagsset) else now
  }

  /** A descriptor that some report names. */
  ghost predicate Names(r: Report, mapping: map<Key, nat>, v: nat) {
    v in r.unprocessed || (r.bits.Some? && exists u :: u in r.bits.value && u < r.nfds && Mapped(mapping, Key(r.fdkind, u), v))
  }

  predicate Mapped(mapping: map<Key, nat>, k: Key, v: nat) {
    k in mapping && mapping[k] == v
  }

  ghost predicate NamedIn(rs: seq<Report>, mapping: map<Key, nat>, low: nat, v: nat) {
    exists i :: low <= i < |rs| && Names(rs[i], mapping, v)
  }

  /** Where the reports after the last silent one begin. */
  function SinceSilent(rs: seq<Report>): (n: nat)
    ensures n <= |rs|
  {
    if rs == [] || Silent(rs[|rs| - 1]) then |rs| else SinceSilent(rs[..|rs| - 1])
  }

  function BitsOf(bits: Option<set<nat>>): set<nat> {
    if bits.Some? then bits.value else {}
  }

  lemma OneMoreReport(r: Report, start: Option<set<nat>>, mapping: map<Key, nat>)
    requires Acceptable(r, mapping)
    ensures var now := MappedBack(r.fdkind, r.nfds, r.bits, r.unprocessed, start, mapping);
      && now.Virtual? && (now.bits.None? <==> Silent(r))
      && (Silent(r) ==> now.flagsset == 0)
      && (!Silent(r) ==>
            && |BitsOf(start)| + now.flagsset == |now.bits.value|
            && forall v :: v in now.bits.value <==> v in BitsOf(start) || Names(r, mapping, v))
  {
    var x := Image(mapping, r.fdkind, Requested(r.bits, r.nfds)) + r.unprocessed;
    NamesAre(r, mapping);
    ReportBack(r, start, mapping);
    hide *;
    if !Silent(r) {
      Added(BitsOf(start), x);
    }
  }

  lemma ReportBack(r: Report, start: Option<set<nat>>, mapping: map<Key, nat>)
    requires Acceptable(r, mapping)
    ensures var s, x := BitsOf(start), Image(mapping, r.fdkind, Requested(r.bits, r.nfds)) + r.unprocessed;
      MappedBack(r.fdkind, r.nfds, r.bits, r.unprocessed, start, mapping)
      == if Silent(r) then Virtual(0, None) else Virtual(|s + x - s|, Some(s + x))
  {
    var s, ready := BitsOf(start), Requested(r.bits, r.nfds);
    assert s == if start.Some? then start.value else {};
    hide Image, Requested, AllMapped;
    assert s + Image(mapping, r.fdkind, ready) + r.unprocessed == s + (Image(mapping, r.fdkind, ready) + r.unprocessed);
  }

  lemma NamesAre(r: Report, mapping: map<Key, nat>)
    ensures forall v :: v in Image(mapping, r.fdkind, Requested(r.bits, r.nfds)) + r.unprocessed <==> Names(r, mapping, v)
  {
    var ready := Requested(r.bits, r.nfds);
    forall v ensures v in Image(mapping, r.fdkind, ready) + r.unprocessed <==> Names(r, mapping, v) {
      if v in Image(mapping, r.fdkind, ready) {
        var u :| u in ready && Key(r.fdkind, u) in mapping && mapping[Key(r.fdkind, u)] == v;
        assert Mapped(mapping, Key(r.fdkind, u), v);
      }
    }
  }

  lemma Added(s: set<nat>, x: set<nat>)
    ensures |s| + |s + x - s| == |s + x|
  {
    assert s + x == s + (s + x - s) && s !! (s + x - s);
  }

  /** After any calls: the bits are what was named since the last silent report, none if it is the last. */
  lemma {:induction false} GatherBits(rs: seq<Report>, mapping: map<Key, nat>)
    requires forall i :: 0 <= i < |rs| ==> Acceptable(rs[i], mapping)
    ensures var all, low := Gather(rs, mapping), SinceSilent(rs);
      && all.Virtual? && (all.bits.None? <==> low == |rs|)
      && (forall v :: v in BitsOf(all.bits) <==> NamedIn(rs, mapping, low, v))
      && all.flagsset >= |BitsOf(all.bits)|
      && ((forall i :: 0 <= i < |rs| ==> !Silent(rs[i])) ==> low == 0 && all.flagsset == |BitsOf(all.bits)|)
    decreases |rs|
  {
    if rs != [] {
      var front, r := rs[..|rs| - 1], rs[|rs| - 1];
      GatherBits(front, mapping);
      var before := Gather(front, mapping);
      OneMoreReport(r, before.bits, mapping);
      hide MappedBack, Acceptable, Names;
      if !Silent(r) {
        forall v ensures NamedIn(rs, mapping, SinceSilent(front), v)
                    <==> NamedIn(front, mapping, SinceSilent(front), v) || Names(r, mapping, v) {
          OneMoreNames(rs, mapping, SinceSilent(front), v);
        }
      }
    }
  }

  lemma OneMoreNames(rs: seq<Report>, mapping: map<Key, nat>, low: nat, v: nat)
    requires rs != [] && low < |rs|
    ensures NamedIn(rs, mapping, low, v) <==> NamedIn(rs[..|rs| - 1], mapping, low, v) || Names(rs[|rs| - 1], mapping, v)
  {
    hide Names;
    var front := rs[..|rs| - 1];
    if i :| low <= i < |front| && Names(front[i], mapping, v) {
      assert Names(rs[i], mapping, v);
    }
    if i :| low <= i < |rs| && Names(rs[i], mapping, v) {
      assert i < |front| ==> Names(front[i], mapping, v);
    }
  }

  /**
   Calls for one request after the other give every descriptor that any of them names, if and
   only if those named up to the last silent report, which returns no set whatever set it was
   given, are named again after it. Without silent reports the counts add up to how many there are.
   */
  lemma GatherEverything(rs: seq<Report>, mapping: map<Key, nat>)
    requires forall i :: 0 <= i < |rs| ==> Acceptable(rs[i], mapping)
    ensures var all, low := Gather(rs, mapping), SinceSilent(rs);
      && all.Virtual?
      && ((forall v :: v in BitsOf(all.bits) <==> NamedIn(rs, mapping, 0, v))
          <==> forall i, v :: 0 <= i < low && Names(rs[i], mapping, v) ==> NamedIn(rs, mapping, low, v))
      && ((forall i :: 0 <= i < |rs| ==> !Silent(rs[i])) ==>
            && (rs != [] ==> all.bits.Some?) && all.flagsset == |BitsOf(all.bits)|
            && forall v :: v in BitsOf(all.bits) <==> NamedIn(rs, mapping, 0, v))
  {
    GatherBits(rs, mapping);
    hide Gather, Acceptable, Names;
  }

  /** A silent report after another: the descriptor is counted, and no set comes back. */
  lemma SilentForgets(fdkind: nat, v: nat, mapping: map<Key, nat>)
    ensures Gather([Report(fdkind, 0, None, {v}), Report(fdkind, 0, None, {})], mapping) == Virtual(1, None)
  {
    var one, silent := Report(fdkind, 0, None, {v}), Report(fdkind, 0, None, {});
    ReportBack(one, None, mapping);
    ReportBack(silent, Some({v}), mapping);
    var none: set<nat> := {};
    NothingAsked(fdkind, 0, None, mapping);
    assert none + {v} == {v} && none + (none + {v}) - none == {v} && none + (none + {v}) == {v};
    hide MappedBack;
    assert [one, silent][..1] == [one] && [one][..0] == [];
    assert Gather([], mapping) == Virtual(0, None);
    assert Gather([one], mapping) == Virtual(1, Some({v}));
  }
}
