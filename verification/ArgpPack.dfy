/**
 Long options carry the number of their group and the user's key packed into one 32-bit int:
 eight bits of group, twenty-four of key, the key's sign kept.
 */
module ArgpPack {

  const USER_BITS_VALUE: int := 0x100_0000
  const INT_RANGE: int := 0x1_0000_0000
  const KEY_END: int := -1
  const KEY_ARG: int := 1
  const KEY_ERR: int := 63

  predicate IsInt32(x: int) {
    -0x8000_0000 <= x < 0x8000_0000
  }

  /** The 32-bit value congruent to `x`. */
  function Wrap(x: int): (r: int)
    ensures IsInt32(r) && (r - x) % INT_RANGE == 0
  {
    (x + 0x8000_0000) % INT_RANGE - 0x8000_0000
  }

  /** `x & USER_MASK` on a 32-bit int. */
  function Masked(x: int): (r: int)
    ensures 0 <= r < USER_BITS_VALUE
  {
    x % USER_BITS_VALUE
  }

  /** `(key & USER_MASK) + ((group + 1) << USER_BITS)`. */
  function Pack(group: nat, key: int): int {
    Wrap(Masked(key) + (group + 1) * USER_BITS_VALUE)
  }

  /** `opt >> USER_BITS`, an arithmetic shift: division rounding down. */
  function GroupKey(opt: int): int {
    opt / USER_BITS_VALUE
  }

  /** `(opt << GROUP_BITS) >> GROUP_BITS`. */
  function UserKey(opt: int): int {
    Wrap(opt * 0x100) / 0x100
  }

  lemma PackedValue(group: nat, key: int)
    requires group + 1 <= 127
    ensures Pack(group, key) == Masked(key) + (group + 1) * USER_BITS_VALUE
  {
  }

  /** The low twenty-four bits, read back as a signed number. */
  lemma UserKeyOf(low: int, high: int)
    requires 0 <= low < USER_BITS_VALUE
    ensures UserKey(low + high * USER_BITS_VALUE) == if low < USER_BITS_VALUE / 2 then low else low - USER_BITS_VALUE
  {
    var x := (low + high * USER_BITS_VALUE) * 0x100;
    var small := low < USER_BITS_VALUE / 2;
    var r := if small then low * 0x100 else low * 0x100 - INT_RANGE;
    var d := if small then high else high + 1;
    assert x + 0x8000_0000 == (r + 0x8000_0000) + d * INT_RANGE;
    Shifted(x + 0x8000_0000, d);
    assert Wrap(x) == r;
  }

  /** Multiplying first and taking the 32-bit value first come to the same. */
  lemma WrapTimes(x: int)
    ensures Wrap(Wrap(x) * 0x100) == Wrap(x * 0x100)
  {
    var d := (x + 0x8000_0000) / INT_RANGE;
    assert Wrap(x) == x - d * INT_RANGE;
    var y := x * 0x100 + 0x8000_0000;
    assert Wrap(x) * 0x100 + 0x8000_0000 == y - (d * 0x100) * INT_RANGE;
    Shifted(y, d * 0x100);
  }

  lemma Shifted(y: int, k: int)
    ensures (y - k * INT_RANGE) % INT_RANGE == y % INT_RANGE
  {
    var q := y / INT_RANGE;
    assert y - k * INT_RANGE == (q - k) * INT_RANGE + y % INT_RANGE;
  }

  /**
   Packing and unpacking, for every group and key: the group comes back if and only if it is
   one of the first 127, the key if and only if it fits in twenty-four signed bits.
   */
  lemma PackRoundTrip(group: nat, key: int)
    ensures IsInt32(Pack(group, key))
    ensures GroupKey(Pack(group, key)) == group + 1 <==> group + 1 <= 127
    ensures UserKey(Pack(group, key)) == key <==> -0x80_0000 <= key < 0x80_0000
  {
    if group + 1 <= 127 {
      PackedValue(group, key);
    }
    var x := Masked(key) + (group + 1) * USER_BITS_VALUE;
    WrapTimes(x);
    UserKeyOf(Masked(key), group + 1);
    assert UserKey(Pack(group, key)) == UserKey(x);
    hide Wrap, UserKey;
  }

  /** The 128th group: the sum leaves the int range, and what comes back is no group. */
  lemma PackOverflows(key: int)
    ensures GroupKey(Pack(127, key)) == -128
  {
  }

  /** Different groups or different keys give different values. */
  lemma PackInjective(g1: nat, k1: int, g2: nat, k2: int)
    requires g1 + 1 <= 127 && g2 + 1 <= 127
    requires -0x80_0000 <= k1 < 0x80_0000 && -0x80_0000 <= k2 < 0x80_0000
    requires Pack(g1, k1) == Pack(g2, k2)
    ensures g1 == g2 && k1 == k2
  {
    PackRoundTrip(g1, k1);
    PackRoundTrip(g2, k2);
  }

  /** No packed value is taken for a short option or for one of getopt's own results. */
  lemma PackIsNoShortOption(group: nat, key: int)
    requires group + 1 <= 127
    ensures Pack(group, key) > 255
    ensures Pack(group, key) != KEY_END && Pack(group, key) != KEY_ARG && Pack(group, key) != KEY_ERR
  {
    PackedValue(group, key);
  }
}
