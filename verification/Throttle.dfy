/** Throttle masks: decoding a 64-bit mask into named flags, diffing two masks, and storing a mask. */
module Throttle {
  import opened Division

  const U64_RANGE := 0x1_0000_0000_0000_0000

  type u64 = n: int | 0 <= n < U64_RANGE

  type u32 = n: int | 0 <= n < 0x1_0000_0000

  const U32_MAX: u32 := 0xFFFF_FFFF

  function Pow2(n: nat): (p: nat)
    ensures p > 0
  {
    if n == 0 then 1 else 2 * Pow2(n - 1)
  }

  /** `(mask >> bit) & 1 == 1`. */
  predicate BitSet(mask: u64, bit: nat) {
    mask / Pow2(bit) % 2 == 1
  }

  const UNKNOWN := "Unknown"

  /** The flag name each of the 64 bits is stored and served under: the foreign bit decoding followed by `flag_name`.
      Bits without a throttler all get the placeholder; no two other bits share a name. */
  type BitNames = t: seq<string> |
    |t| == 64 && forall i, j :: 0 <= i < j < 64 && t[i] == t[j] ==> t[i] == UNKNOWN
    witness seq(64, _ => UNKNOWN)

  predicate KnownBitSet(names: BitNames, mask: u64, bit: nat)
    requires bit < 64
  {
    names[bit] != UNKNOWN && BitSet(mask, bit)
  }

  function ActiveUpTo(names: BitNames, mask: u64, n: nat): seq<string>
    requires n <= 64
  {
    if n == 0 then [] else
    ActiveUpTo(names, mask, n - 1) + if KnownBitSet(names, mask, n - 1) then [names[n - 1]] else []
  }

  /** `active_flags`: the names of the known bits that are set, in bit order. */
  function ActiveFlags(names: BitNames, mask: u64): seq<string> {
    ActiveUpTo(names, mask, 64)
  }

  /** `flag_active`: does any set bit, known or not, carry this name? */
  predicate FlagActive(names: BitNames, mask: u64, name: string) {
    exists bit :: 0 <= bit < 64 && BitSet(mask, bit) && names[bit] == name
  }

  /** The known flags of a mask, as a set: what the log is about. */
  function Known(names: BitNames, mask: u64): set<string> {
    set bit | 0 <= bit < 64 && KnownBitSet(names, mask, bit) :: names[bit]
  }

  lemma {:induction false} ActiveUpToMembers(names: BitNames, mask: u64, n: nat, f: string)
    requires n <= 64
    ensures f in ActiveUpTo(names, mask, n) <==> exists bit :: 0 <= bit < n && KnownBitSet(names, mask, bit) && names[bit] == f
  {
    if n > 0 { ActiveUpToMembers(names, mask, n - 1, f); }
  }

  ghost predicate Distinct(flags: seq<string>) {
    forall i, j :: 0 <= i < j < |flags| ==> flags[i] != flags[j]
  }

  lemma {:induction false} ListedOnce(flags: seq<string>, flag: string)
    requires Distinct(flags)
    ensures multiset(flags)[flag] == if flag in flags then 1 else 0
  {
    if flags != [] {
      ListedOnce(flags[..|flags| - 1], flag);
      assert flags == flags[..|flags| - 1] + [flags[|flags| - 1]];
    }
  }

  lemma {:induction false} ActiveUpToDistinct(names: BitNames, mask: u64, n: nat)
    requires n <= 64
    ensures Distinct(ActiveUpTo(names, mask, n))
  {
    if n > 0 {
      ActiveUpToDistinct(names, mask, n - 1);
      ActiveUpToMembers(names, mask, n - 1, names[n - 1]);
    }
  }

  /** `active_flags` never repeats a name, and lists exactly the known flags of the mask. */
  lemma {:induction false} ActiveFlagsMeaning(names: BitNames, mask: u64)
    ensures forall f :: f in ActiveFlags(names, mask) <==> f in Known(names, mask)
    ensures Distinct(ActiveFlags(names, mask))
  {
    ActiveUpToDistinct(names, mask, 64);
    forall f ensures f in ActiveFlags(names, mask) <==> f in Known(names, mask) {
      ActiveUpToMembers(names, mask, 64, f);
    }
  }

  /** The chart's test and the stored list agree on every name but the placeholder for undecoded bits. */
  lemma {:induction false} FlagActiveIsListed(names: BitNames, mask: u64, f: string)
    requires f != UNKNOWN
    ensures FlagActive(names, mask, f) <==> f in ActiveFlags(names, mask)
  {
    ActiveFlagsMeaning(names, mask);
  }

  // ---- what a bit is ----

  /** The weights of the bits that are set, below bit n. */
  function SumOfBits(mask: u64, n: nat): nat {
    if n == 0 then 0 else SumOfBits(mask, n - 1) + if BitSet(mask, n - 1) then Pow2(n - 1) else 0
  }

  /** The weights start at one and double, and 64 of them span the masks. */
  lemma {:induction false} Weights()
    ensures Pow2(0) == 1 && (forall k: nat :: Pow2(k + 1) == 2 * Pow2(k)) && Pow2(64) == 0x1_0000_0000_0000_0000 == U64_RANGE
  {
    assert Pow2(8) == 0x100;
    assert Pow2(16) == 0x100 * Pow2(8);
    assert Pow2(24) == 0x100 * Pow2(16);
    assert Pow2(32) == 0x100 * Pow2(24);
    assert Pow2(40) == 0x100 * Pow2(32);
    assert Pow2(48) == 0x100 * Pow2(40);
    assert Pow2(56) == 0x100 * Pow2(48);
    assert Pow2(64) == 0x100 * Pow2(56);
  }

  /** Bit j of a mask is bit j - 1 of its half. */
  lemma {:induction false} NextBit(m: nat, j: nat)
    requires j > 0
    ensures m / Pow2(j) == m / 2 / Pow2(j - 1)
  {
    DivideHalf(m, Pow2(j - 1));
  }

  lemma {:induction false} SumOfHalf(mask: u64, n: nat)
    requires n > 0
    ensures SumOfBits(mask, n) == mask % 2 + 2 * SumOfBits(mask / 2, n - 1)
  {
    if n > 1 {
      SumOfHalf(mask, n - 1);
      NextBit(mask, n - 1);
    }
  }

  lemma {:induction false} SumOfAllBits(mask: u64, n: nat)
    requires mask < Pow2(n)
    ensures mask == SumOfBits(mask, n)
  {
    if n > 0 {
      SumOfHalf(mask, n);
      SumOfAllBits(mask / 2, n - 1);
    }
  }

  /** Every mask is the sum of the weights of its set bits, over all 64 of them. */
  lemma {:induction false} MaskIsSumOfBits(mask: u64)
    ensures mask == SumOfBits(mask, 64)
  {
    Weights();
    SumOfAllBits(mask, 64);
  }

  /** Adding the weight of a clear bit sets that bit and no other. */
  lemma {:induction false} AddedBit(m: nat, k: nat, j: nat)
    requires m / Pow2(k) % 2 == 0
    ensures (m + Pow2(k)) / Pow2(j) % 2 == if j == k then 1 else m / Pow2(j) % 2
  {
    if k == 0 {
      if j > 0 {
        assert (m + 1) / 2 == m / 2;
        NextBit(m, j);
        NextBit(m + 1, j);
      }
    } else {
      var half := Pow2(k - 1);
      NextBit(m, k);
      assert (m + 2 * half) / 2 == m / 2 + half && (m + 2 * half) % 2 == m % 2;
      if j > 0 {
        AddedBit(m / 2, k - 1, j - 1);
        NextBit(m, j);
        NextBit(m + 2 * half, j);
      }
    }
  }

  lemma {:induction false} WeightBounds(k: nat)
    requires k < 64
    ensures Pow2(k) < U64_RANGE
    decreases 64 - k
  {
    Weights();
    if k < 63 { WeightBounds(k + 1); }
  }

  /** The mask that is a single weight has that bit, and only that one. */
  lemma {:induction false} SingleBit(k: nat, j: nat)
    requires k < 64
    ensures Pow2(k) < U64_RANGE && (BitSet(Pow2(k), j) <==> j == k)
  {
    WeightBounds(k);
    QuotientIs(0, Pow2(k), 0, 0);
    QuotientIs(0, Pow2(j), 0, 0);
    AddedBit(0, k, j);
  }

  lemma {:induction false} SingleUpTo(names: BitNames, k: nat, n: nat)
    requires k < 64 && n <= 64 && Pow2(k) < U64_RANGE
    ensures ActiveUpTo(names, Pow2(k), n) == if k < n && names[k] != UNKNOWN then [names[k]] else []
  {
    if n > 0 {
      SingleBit(k, n - 1);
      SingleUpTo(names, k, n - 1);
    }
  }

  /** A mask that is the weight of bit k lists exactly the name of bit k, if it is known, for every k below 64. */
  lemma {:induction false} OneBitIsListed(names: BitNames, k: nat)
    requires k < 64
    ensures Pow2(k) < U64_RANGE && ActiveFlags(names, Pow2(k)) == if names[k] != UNKNOWN then [names[k]] else []
  {
    WeightBounds(k);
    SingleUpTo(names, k, 64);
  }

  // ---- diffing two masks ----

  datatype Change = Change(flag: string, oldValue: bool, newValue: bool)

  function DiffUpTo(names: BitNames, oldMask: u64, newMask: u64, n: nat): seq<Change>
    requires n <= 64
  {
    if n == 0 then [] else
    var before, after := BitSet(oldMask, n - 1), BitSet(newMask, n - 1);
    DiffUpTo(names, oldMask, newMask, n - 1)
    + if before != after && names[n - 1] != UNKNOWN then [Change(names[n - 1], before, after)] else []
  }

  function Diff(names: BitNames, oldMask: u64, newMask: u64): seq<Change> {
    DiffUpTo(names, oldMask, newMask, 64)
  }

  /** `diff_flags`: one pass over the 64 bits, pushing a change per known bit that differs. */
  method DiffFlags(names: BitNames, oldMask: u64, newMask: u64) returns (changes: seq<Change>)
    ensures changes == Diff(names, oldMask, newMask)
  {
    changes := [];
    for bit := 0 to 64
      invariant changes == DiffUpTo(names, oldMask, newMask, bit)
    {
      var before, after := BitSet(oldMask, bit), BitSet(newMask, bit);
      if before != after {
        var name := names[bit];
        if name != UNKNOWN {
          changes := changes + [Change(name, before, after)];
        }
      }
    }
  }

  lemma {:induction false} OneChangeUpTo(names: BitNames, mask: u64, k: nat, n: nat)
    requires k < 64 && n <= 64 && !BitSet(mask, k) && mask + Pow2(k) < U64_RANGE
    ensures DiffUpTo(names, mask, mask + Pow2(k), n) == if k < n && names[k] != UNKNOWN then [Change(names[k], false, true)] else []
    ensures DiffUpTo(names, mask + Pow2(k), mask, n) == if k < n && names[k] != UNKNOWN then [Change(names[k], true, false)] else []
  {
    if n > 0 {
      AddedBit(mask, k, n - 1);
      OneChangeUpTo(names, mask, k, n - 1);
    }
  }

  /** Two masks that differ in bit k alone give exactly one change if the bit is known, and none otherwise, for every k
      below 64 and in both directions. */
  lemma {:induction false} OneBitIsOneChange(names: BitNames, mask: u64, k: nat)
    requires k < 64 && !BitSet(mask, k)
    ensures mask + Pow2(k) < U64_RANGE
    ensures Diff(names, mask, mask + Pow2(k)) == if names[k] != UNKNOWN then [Change(names[k], false, true)] else []
    ensures Diff(names, mask + Pow2(k), mask) == if names[k] != UNKNOWN then [Change(names[k], true, false)] else []
  {
    RoomForBit(mask, k);
    OneChangeUpTo(names, mask, k, 64);
  }

  /** A mask with a clear bit has room for its weight. */
  lemma {:induction false} RoomForBit(mask: u64, k: nat)
    requires k < 64 && !BitSet(mask, k)
    ensures mask + Pow2(k) < U64_RANGE
  {
    MaskIsSumOfBits(mask);
    Weights();
    SumWithout(mask, k, 64);
  }

  lemma {:induction false} SumWithout(mask: u64, k: nat, n: nat)
    requires !BitSet(mask, k)
    ensures SumOfBits(mask, n) + (if k < n then Pow2(k) else 0) < Pow2(n)
  {
    if n > 0 { SumWithout(mask, k, n - 1); }
  }

  function Apply(flags: set<string>, c: Change): set<string> {
    if c.newValue then flags + {c.flag} else flags - {c.flag}
  }

  /** Replaying changes over a set of active flags, oldest first. */
  function ApplyAll(flags: set<string>, changes: seq<Change>): set<string> {
    if changes == [] then flags else Apply(ApplyAll(flags, changes[..|changes| - 1]), changes[|changes| - 1])
  }

  lemma {:induction false} ApplyAllAppend(flags: set<string>, a: seq<Change>, b: seq<Change>)
    ensures ApplyAll(flags, a + b) == ApplyAll(ApplyAll(flags, a), b)
  {
    if b == [] {
      assert a + b == a;
    } else {
      var ab := a + b;
      assert ab[..|ab| - 1] == a + b[..|b| - 1];
      ApplyAllAppend(flags, a, b[..|b| - 1]);
    }
  }

  ghost predicate FlagsDistinct(changes: seq<Change>) {
    forall i, j :: 0 <= i < j < |changes| ==> changes[i].flag != changes[j].flag
  }

  ghost predicate ChangedAt(names: BitNames, oldMask: u64, newMask: u64, bit: nat, c: Change)
    requires bit < 64
  {
    && names[bit] != UNKNOWN && c.flag == names[bit] && c.oldValue != c.newValue
    && c.oldValue == BitSet(oldMask, bit) && c.newValue == BitSet(newMask, bit)
  }

  lemma {:induction false} DiffUpToMembers(names: BitNames, oldMask: u64, newMask: u64, n: nat, c: Change)
    requires n <= 64
    ensures c in DiffUpTo(names, oldMask, newMask, n) <==> exists bit :: 0 <= bit < n && ChangedAt(names, oldMask, newMask, bit, c)
  {
    if n > 0 {
      DiffUpToMembers(names, oldMask, newMask, n - 1, c);
      var before, after := BitSet(oldMask, n - 1), BitSet(newMask, n - 1);
      var last := Change(names[n - 1], before, after);
      assert ChangedAt(names, oldMask, newMask, n - 1, c) <==> (names[n - 1] != UNKNOWN && before != after && c == last);
    }
  }

  lemma {:induction false} DiffUpToDistinct(names: BitNames, oldMask: u64, newMask: u64, n: nat)
    requires n <= 64
    ensures FlagsDistinct(DiffUpTo(names, oldMask, newMask, n))
  {
    if n > 0 {
      var prev := DiffUpTo(names, oldMask, newMask, n - 1);
      DiffUpToDistinct(names, oldMask, newMask, n - 1);
      forall i | 0 <= i < |prev| && names[n - 1] != UNKNOWN
        ensures prev[i].flag != names[n - 1]
      {
        DiffUpToMembers(names, oldMask, newMask, n - 1, prev[i]);
        var bit :| 0 <= bit < n - 1 && ChangedAt(names, oldMask, newMask, bit, prev[i]);
      }
    }
  }

  lemma {:induction false} KnownAt(names: BitNames, mask: u64, bit: nat)
    requires bit < 64 && names[bit] != UNKNOWN
    ensures names[bit] in Known(names, mask) <==> BitSet(mask, bit)
  {
    assert BitSet(mask, bit) == KnownBitSet(names, mask, bit);
  }

  /** The membership change of one flag between two sets of known flags. */
  ghost predicate Flips(before: set<string>, after: set<string>, c: Change) {
    c.oldValue == (c.flag in before) && c.newValue == (c.flag in after) && c.oldValue != c.newValue
  }

  /** A change is logged exactly when a known flag's membership differs, with the right old and new values, and
      no flag is logged twice. */
  lemma {:induction false} DiffMeaning(names: BitNames, oldMask: u64, newMask: u64)
    ensures forall c :: c in Diff(names, oldMask, newMask) <==> Flips(Known(names, oldMask), Known(names, newMask), c)
    ensures FlagsDistinct(Diff(names, oldMask, newMask))
  {
    DiffUpToDistinct(names, oldMask, newMask, 64);
    forall c: Change
      ensures c in Diff(names, oldMask, newMask) <==> Flips(Known(names, oldMask), Known(names, newMask), c)
    {
      DiffMembers(names, oldMask, newMask, c);
    }
  }

  lemma {:induction false} DiffMembers(names: BitNames, oldMask: u64, newMask: u64, c: Change)
    ensures c in Diff(names, oldMask, newMask) <==> Flips(Known(names, oldMask), Known(names, newMask), c)
  {
    DiffUpToMembers(names, oldMask, newMask, 64, c);
    if c in Diff(names, oldMask, newMask) {
      var bit :| 0 <= bit < 64 && ChangedAt(names, oldMask, newMask, bit, c);
      KnownAt(names, oldMask, bit);
      KnownAt(names, newMask, bit);
    } else if Flips(Known(names, oldMask), Known(names, newMask), c) {
      var bit :| 0 <= bit < 64 && names[bit] != UNKNOWN && names[bit] == c.flag;
      KnownAt(names, oldMask, bit);
      KnownAt(names, newMask, bit);
      assert ChangedAt(names, oldMask, newMask, bit, c);
    }
  }

  /** A replay touches exactly the flags that are logged. */
  lemma {:induction false} ApplyAllMember(flags: set<string>, changes: seq<Change>, f: string)
    requires FlagsDistinct(changes)
    ensures (forall c :: c in changes ==> c.flag != f) ==> (f in ApplyAll(flags, changes) <==> f in flags)
    ensures forall c :: c in changes && c.flag == f ==> (f in ApplyAll(flags, changes) <==> c.newValue)
  {
    if changes != [] {
      ApplyAllMember(flags, changes[..|changes| - 1], f);
      assert changes == changes[..|changes| - 1] + [changes[|changes| - 1]];
    }
  }

  ghost predicate Mentions(changes: seq<Change>, f: string) {
    exists c :: c in changes && c.flag == f
  }

  lemma {:induction false} MentionsAppend(a: seq<Change>, b: seq<Change>, f: string)
    ensures Mentions(a + b, f) <==> Mentions(a, f) || Mentions(b, f)
  {
    if Mentions(a, f) || Mentions(b, f) {
      var c :| (c in a || c in b) && c.flag == f;
      assert c in a + b;
    }
  }

  /** Over any flags at all, right or wrong: a diff sets right what it mentions and leaves the rest as it was. */
  lemma {:induction false} DiffRepairs(names: BitNames, oldMask: u64, newMask: u64, flags: set<string>, f: string)
    ensures var d := Diff(names, oldMask, newMask);
            if Mentions(d, f) then f in ApplyAll(flags, d) <==> f in Known(names, newMask)
            else (f in ApplyAll(flags, d) <==> f in flags) && (f in Known(names, oldMask) <==> f in Known(names, newMask))
  {
    var d := Diff(names, oldMask, newMask);
    DiffUpToDistinct(names, oldMask, newMask, 64);
    ApplyAllMember(flags, d, f);
    if Mentions(d, f) {
      var c :| c in d && c.flag == f;
      DiffMembers(names, oldMask, newMask, c);
    } else {
      DiffMembers(names, oldMask, newMask, Change(f, f in Known(names, oldMask), f in Known(names, newMask)));
    }
  }

  /** Replaying the diff of two masks over the old mask's known flags yields the new mask's known flags. */
  lemma {:induction false} DiffReplays(names: BitNames, oldMask: u64, newMask: u64)
    ensures ApplyAll(Known(names, oldMask), Diff(names, oldMask, newMask)) == Known(names, newMask)
  {
    forall f
      ensures f in ApplyAll(Known(names, oldMask), Diff(names, oldMask, newMask)) <==> f in Known(names, newMask)
    {
      DiffRepairs(names, oldMask, newMask, Known(names, oldMask), f);
    }
  }

  /** Losing any tail of the diff is always visible: no strict prefix of it reaches the new flags. */
  lemma {:induction false} PartialDiffFallsShort(names: BitNames, oldMask: u64, newMask: u64, k: nat)
    requires k < |Diff(names, oldMask, newMask)|
    ensures ApplyAll(Known(names, oldMask), Diff(names, oldMask, newMask)[..k]) != Known(names, newMask)
  {
    var d := Diff(names, oldMask, newMask);
    DiffMeaning(names, oldMask, newMask);
    assert d[k] in d;
    ApplyAllMember(Known(names, oldMask), d[..k], d[k].flag);
  }

  lemma {:induction false} SameMaskNoDiff(names: BitNames, mask: u64, n: nat)
    requires n <= 64
    ensures DiffUpTo(names, mask, mask, n) == []
  {
    if n > 0 { SameMaskNoDiff(names, mask, n - 1); }
  }

  // ---- storing a mask in a signed 64-bit column ----

  /** `as i64`. */
  function AsI64(v: u64): (r: int) {
    if v < U64_RANGE / 2 then v else v - U64_RANGE
  }

  /** `as u64`. */
  function AsU64(v: int): u64 {
    v % U64_RANGE
  }

  /** A mask written to the signed column and read back is the same mask, the column is wide enough, and the cast keeps
      the bits: the value is the mask itself or the mask minus 2^64. */
  lemma {:induction false} MaskRoundTrip(v: u64)
    ensures AsU64(AsI64(v)) == v
    ensures -U64_RANGE / 2 <= AsI64(v) < U64_RANGE / 2
    ensures AsI64(v) == v || AsI64(v) == v - 0x1_0000_0000_0000_0000
  {
    if v >= U64_RANGE / 2 {
      assert (v - U64_RANGE) % U64_RANGE == v;
    }
  }
}
