/**
 * Name hashing and the tag bloom filter (udevfw.c:51-66, 97-104).
 *
 * `stringHash` is MurmurHash2 over the bytes of a C string with seed 0.
 * MurmurHash2 itself lives in MurmurHash2.h, which is not part of this
 * model: it is a parameter `murmur` of every function that hashes, so
 * everything proved here holds whatever 32-bit hash it is.
 *
 * A tag contributes four bits to a 64-bit word, selected by the four
 * 6-bit slices (bits 0-5, 6-11, 12-17, 18-23) of its hash; the event's
 * filter is the OR over its tags, sent as two 32-bit halves.
 *
 * An `unsigned long long` is a natural number below 2^64 here: `1ULL << p`
 * is 2^p, `a | b` is `Or(a, b)`, the OR of the binary digits, and bit `p`
 * of a word is its `p`-th binary digit.
 */
module Bloom {
  import opened Bytes

  /** `MurmurHash2(key, len, seed)`: the bytes of the key and the seed. */
  type Murmur2 = (seq<byte>, u32) -> u32

  /** `stringHash(str)`: MurmurHash2 over the `strlen(str)` bytes of `str`, seed 0. */
  function StringHash(murmur: Murmur2, s: CStr): u32 {
    murmur(s, 0)
  }

  // ---------------------------------------------------------------------
  // Words as natural numbers.

  const Word32: nat := 0x1_0000_0000
  const Word64: nat := 0x1_0000_0000_0000_0000

  function Pow2(n: nat): (r: nat)
    ensures r >= 1
  {
    if n == 0 then 1 else 2 * Pow2(n - 1)
  }

  /** Bit `p` of `x` is set: its `p`-th binary digit is 1. */
  predicate HasBit(x: nat, p: nat) {
    if p == 0 then x % 2 == 1 else HasBit(x / 2, p - 1)
  }

  /** `x | y`: bitwise OR, one binary digit at a time. */
  function Or(x: nat, y: nat): nat
    decreases x + y
  {
    if x == 0 && y == 0 then 0
    else 2 * Or(x / 2, y / 2) + (if x % 2 == 1 || y % 2 == 1 then 1 else 0)
  }

  /** `1ULL << p`. */
  function Bit(p: nat): (w: nat)
    requires p < 64
    ensures w < Word64
  {
    Pow2Literals();
    Pow2Monotone(p + 1, 64);
    Pow2(p)
  }

  /** The positions of the bits set in a 64-bit word. */
  ghost function BitSet(x: nat): set<nat> {
    set p | p < 64 && HasBit(x, p)
  }

  // ---------------------------------------------------------------------
  // The bloom hash of one name.

  /** `(hash >> shift) & 63`: one 6-bit slice of a hash, a bit position. */
  function Slice(hash: u32, shift: nat): (p: nat)
    requires shift <= 18
    ensures p < 64
  {
    hash / Pow2(shift) % 64
  }

  /** The four bit positions a hash selects: its slices at bits 0, 6, 12 and 18. */
  function Slices(hash: u32): set<nat> {
    {Slice(hash, 0), Slice(hash, 6), Slice(hash, 12), Slice(hash, 18)}
  }

  /** `bits |= 1ULL << p` on a 64-bit word. */
  function SetBit(bits: nat, p: nat): (r: nat)
    requires bits < Word64 && p < 64
    ensures r < Word64
  {
    Pow2Literals();
    OrBound(bits, Bit(p), 64);
    Or(bits, Bit(p))
  }

  /** `bloomHash(str)`: `bits` starts at 0 and gets one bit per slice of `stringHash(str)`. */
  function BloomHash(murmur: Murmur2, s: CStr): (bits: nat)
    ensures bits < Word64
  {
    var hash := StringHash(murmur, s);
    SetBit(SetBit(SetBit(SetBit(0, Slice(hash, 0)), Slice(hash, 6)), Slice(hash, 12)), Slice(hash, 18))
  }

  /** `tagBits` after the tag loop (udevfw.c:76, 97-101): 0, then OR-ed with `bloomHash` of each tag in list order. */
  function TagFilter(murmur: Murmur2, tags: seq<CStr>): (bits: nat)
    ensures bits < Word64
    decreases |tags|
  {
    if tags == [] then 0
    else
      var before := TagFilter(murmur, tags[..|tags| - 1]);
      var tag := BloomHash(murmur, tags[|tags| - 1]);
      Pow2Literals();
      OrBound(before, tag, 64);
      Or(before, tag)
  }

  /** `tagBits & 0xFFFFFFFF`, the value of `filterTagBloomLow` before `htonl`. */
  function BloomLow(bits: nat): (low: nat)
    ensures low < Word32
  {
    bits % Word32
  }

  /** `tagBits >> 32`, the value of `filterTagBloomHigh` before `htonl`. */
  function BloomHigh(bits: nat): (high: nat)
    requires bits < Word64
    ensures high < Word32
  {
    bits / Word32
  }

  // ---------------------------------------------------------------------
  // Arithmetic of powers of two.

  lemma {:induction false} Pow2Add(a: nat, b: nat)
    ensures Pow2(a + b) == Pow2(a) * Pow2(b)
    decreases a
  {
    if a > 0 {
      Pow2Add(a - 1, b);
      assert Pow2(a + b) == 2 * Pow2(a - 1 + b);
    }
  }

  lemma {:induction false} Pow2Monotone(a: nat, b: nat)
    requires a <= b
    ensures Pow2(a) <= Pow2(b)
    decreases b
  {
    if a < b {
      Pow2Monotone(a, b - 1);
    }
  }

  lemma Pow2Byte()
    ensures Pow2(8) == 256
  {
  }

  lemma Pow2Short()
    ensures Pow2(16) == 0x1_0000
  {
    Pow2Byte();
    Pow2Add(8, 8);
  }

  lemma Pow2Literals()
    ensures Pow2(32) == Word32 && Pow2(64) == Word64
  {
    Pow2Short();
    Pow2Add(16, 16);
    Pow2Add(32, 32);
  }

  // ---------------------------------------------------------------------
  // Bits of words.

  lemma {:induction false} ZeroHasNoBits(p: nat)
    ensures !HasBit(0, p)
  {
    if p > 0 {
      ZeroHasNoBits(p - 1);
    }
  }

  /** Bit `p` of `x | y` is set exactly when it is set in `x` or in `y`. */
  lemma {:induction false} OrBits(x: nat, y: nat, p: nat)
    ensures HasBit(Or(x, y), p) <==> HasBit(x, p) || HasBit(y, p)
    decreases p
  {
    if x == 0 && y == 0 {
      ZeroHasNoBits(p);
    } else {
      OrDigits(x, y);
      if p > 0 {
        OrBits(x / 2, y / 2, p - 1);
      }
    }
  }

  /** The last binary digit of `x | y` and the digits before it. */
  lemma OrDigits(x: nat, y: nat)
    requires x != 0 || y != 0
    ensures Or(x, y) % 2 == (if x % 2 == 1 || y % 2 == 1 then 1 else 0)
    ensures Or(x, y) / 2 == Or(x / 2, y / 2)
  {
  }

  /** `1ULL << q` has bit `q` set and no other. */
  lemma {:induction false} Pow2Bits(q: nat, p: nat)
    ensures HasBit(Pow2(q), p) <==> p == q
    decreases p
  {
    if p == 0 {
      if q > 0 {
        assert Pow2(q) % 2 == 0;
      }
    } else if q == 0 {
      ZeroHasNoBits(p - 1);
    } else {
      assert Pow2(q) / 2 == Pow2(q - 1);
      Pow2Bits(q - 1, p - 1);
    }
  }

  /** A word below 2^n has no bit at or above position n. */
  lemma {:induction false} NoBitsAbove(x: nat, n: nat, p: nat)
    requires x < Pow2(n) && n <= p
    ensures !HasBit(x, p)
    decreases p
  {
    if n == 0 {
      ZeroHasNoBits(p);
    } else {
      NoBitsAbove(x / 2, n - 1, p - 1);
    }
  }

  /** OR of two words below 2^n is below 2^n: `|` stays within 64 bits. */
  lemma {:induction false} OrBound(x: nat, y: nat, n: nat)
    requires x < Pow2(n) && y < Pow2(n)
    ensures Or(x, y) < Pow2(n)
    decreases n
  {
    if n > 0 && !(x == 0 && y == 0) {
      OrBound(x / 2, y / 2, n - 1);
    }
  }

  /** Two words with the same bits are the same word. */
  lemma {:induction false} SameBitsSameWord(x: nat, y: nat)
    requires forall p: nat :: HasBit(x, p) == HasBit(y, p)
    ensures x == y
    decreases x + y
  {
    assert HasBit(x, 0) == HasBit(y, 0);
    if x != 0 || y != 0 {
      forall p: nat ensures HasBit(x / 2, p) == HasBit(y / 2, p) {
        assert HasBit(x, p + 1) == HasBit(y, p + 1);
      }
      if x / 2 == 0 && y / 2 == 0 {
      } else {
        SameBitsSameWord(x / 2, y / 2);
      }
    }
  }

  /** A 64-bit word is determined by its set of bit positions. */
  lemma BitSetDetermines(x: nat, y: nat)
    requires x < Word64 && y < Word64 && BitSet(x) == BitSet(y)
    ensures x == y
  {
    Pow2Literals();
    forall p: nat ensures HasBit(x, p) == HasBit(y, p) {
      if p < 64 {
        assert HasBit(x, p) <==> p in BitSet(x);
      } else {
        NoBitsAbove(x, 64, p);
        NoBitsAbove(y, 64, p);
      }
    }
    SameBitsSameWord(x, y);
  }

  lemma BitSetOr(x: nat, y: nat)
    ensures BitSet(Or(x, y)) == BitSet(x) + BitSet(y)
  {
    forall p: nat | p < 64 ensures HasBit(Or(x, y), p) <==> HasBit(x, p) || HasBit(y, p) {
      OrBits(x, y, p);
    }
  }

  lemma BitSetBit(q: nat)
    requires q < 64
    ensures BitSet(Bit(q)) == {q}
  {
    forall p: nat | p < 64 ensures HasBit(Pow2(q), p) <==> p == q {
      Pow2Bits(q, p);
    }
  }

  lemma BitSetSetBit(bits: nat, p: nat)
    requires bits < Word64 && p < 64
    ensures BitSet(SetBit(bits, p)) == BitSet(bits) + {p}
  {
    BitSetOr(bits, Bit(p));
    BitSetBit(p);
  }

  lemma BitSetZero()
    ensures BitSet(0) == {}
  {
    forall p: nat | p < 64 ensures !HasBit(0, p) {
      ZeroHasNoBits(p);
    }
  }

  lemma SubsetCard<T>(small: set<T>, big: set<T>)
    requires small <= big
    ensures |small| <= |big|
  {
    assert big == small + (big - small);
  }

  // ---------------------------------------------------------------------
  // What `bloomHash` and the tag filter contain.

  /**
   * `bloomHash(s)` sets exactly the four positions selected by the slices
   * of `stringHash(s)`: between one and four bits.
   */
  lemma BloomHashBits(murmur: Murmur2, s: CStr)
    ensures BitSet(BloomHash(murmur, s)) == Slices(StringHash(murmur, s))
    ensures 1 <= |BitSet(BloomHash(murmur, s))| <= 4
  {
    var hash := StringHash(murmur, s);
    FourBits(Slice(hash, 0), Slice(hash, 6), Slice(hash, 12), Slice(hash, 18));
    SlicesCard(hash);
  }

  lemma FourBits(p0: nat, p1: nat, p2: nat, p3: nat)
    requires p0 < 64 && p1 < 64 && p2 < 64 && p3 < 64
    ensures BitSet(SetBit(SetBit(SetBit(SetBit(0, p0), p1), p2), p3)) == {p0, p1, p2, p3}
  {
    var b1 := SetBit(0, p0);
    var b2 := SetBit(b1, p1);
    var b3 := SetBit(b2, p2);
    BitSetZero();
    BitSetSetBit(0, p0);
    BitSetSetBit(b1, p1);
    BitSetSetBit(b2, p2);
    BitSetSetBit(b3, p3);
  }

  lemma SlicesCard(hash: u32)
    ensures 1 <= |Slices(hash)| <= 4
  {
    var p0, p1, p2, p3 := Slice(hash, 0), Slice(hash, 6), Slice(hash, 12), Slice(hash, 18);
    assert |{p0}| == 1;
    SubsetCard({p0}, Slices(hash));
    assert |{p0} + {p1}| <= 2;
    assert |{p0, p1} + {p2}| <= 3;
  }

  /**
   * A tag sets exactly one bit if and only if its four slices coincide,
   * and the word is then `1ULL << slice`.
   */
  lemma BloomHashSingleBit(murmur: Murmur2, s: CStr)
    ensures var hash := StringHash(murmur, s);
      |BitSet(BloomHash(murmur, s))| == 1 <==>
        (Slice(hash, 0) == Slice(hash, 6) == Slice(hash, 12) == Slice(hash, 18))
    ensures var hash := StringHash(murmur, s);
      Slice(hash, 0) == Slice(hash, 6) == Slice(hash, 12) == Slice(hash, 18) ==>
        BloomHash(murmur, s) == Bit(Slice(hash, 0))
  {
    var hash := StringHash(murmur, s);
    var a, b, c, d := Slice(hash, 0), Slice(hash, 6), Slice(hash, 12), Slice(hash, 18);
    BloomHashBits(murmur, s);
    if a == b == c == d {
      assert Slices(hash) == {a};
      BitSetBit(a);
      BitSetDetermines(BloomHash(murmur, s), Bit(a));
    } else {
      var q := if a != b then b else if a != c then c else d;
      assert {a, q} <= Slices(hash);
      SubsetCard({a, q}, Slices(hash));
    }
  }

  /** The bit positions contributed by a list of tags. */
  ghost function TagSlices(murmur: Murmur2, tags: seq<CStr>): set<nat> {
    set t, p | t in tags && p in Slices(StringHash(murmur, t)) :: p
  }

  /** The filter has exactly the bits of its tags, and none for an empty tag list. */
  lemma {:induction false} TagFilterBits(murmur: Murmur2, tags: seq<CStr>)
    ensures BitSet(TagFilter(murmur, tags)) == TagSlices(murmur, tags)
    decreases |tags|
  {
    if tags == [] {
      BitSetZero();
    } else {
      var init, last := tags[..|tags| - 1], tags[|tags| - 1];
      assert tags == init + [last];
      TagSlicesSnoc(murmur, init, last);
      TagFilterBits(murmur, init);
      BitSetOr(TagFilter(murmur, init), BloomHash(murmur, last));
      BloomHashBits(murmur, last);
    }
  }

  /**
   * Every bit of every tag's `bloomHash` is in the filter, so a receiver
   * testing `(filter & bloomHash(t)) == bloomHash(t)` finds each tag present.
   */
  lemma TagFilterCovers(murmur: Murmur2, tags: seq<CStr>, t: CStr)
    requires t in tags
    ensures BitSet(BloomHash(murmur, t)) <= BitSet(TagFilter(murmur, tags))
  {
    TagFilterBits(murmur, tags);
    BloomHashBits(murmur, t);
  }

  lemma TagSlicesSnoc(murmur: Murmur2, init: seq<CStr>, last: CStr)
    ensures TagSlices(murmur, init + [last]) == TagSlices(murmur, init) + Slices(StringHash(murmur, last))
  {
    var tags := init + [last];
    forall p | p in TagSlices(murmur, tags)
      ensures p in TagSlices(murmur, init) + Slices(StringHash(murmur, last))
    {
      var t :| t in tags && p in Slices(StringHash(murmur, t));
      if t != last {
        assert t in init;
      }
    }
  }

  /**
   * The filter depends only on which tags are present: not on their order
   * nor on repetitions.
   */
  lemma TagFilterSameTags(murmur: Murmur2, tags1: seq<CStr>, tags2: seq<CStr>)
    requires forall t :: t in tags1 <==> t in tags2
    ensures TagFilter(murmur, tags1) == TagFilter(murmur, tags2)
  {
    TagFilterBits(murmur, tags1);
    TagFilterBits(murmur, tags2);
    assert TagSlices(murmur, tags1) == TagSlices(murmur, tags2);
    BitSetDetermines(TagFilter(murmur, tags1), TagFilter(murmur, tags2));
  }

  /** The two halves put back together give the filter. */
  lemma SplitHalves(bits: nat)
    requires bits < Word64
    ensures BloomLow(bits) + BloomHigh(bits) * Word32 == bits
  {
  }
}
