/**
 * CRC16-XModem: polynomial 0x1021, initial register 0.
 *
 * Words are bit strings of length 16, most significant bit first, so `^`, `<<`
 * and `& 0x8000` are the bitwise operations of the program. The reference is
 * the bit-serial division of the message; the program folds in a whole byte
 * and then shifts eight times.
 */
module Crc16 {
  import opened Bits

  function Zeros(n: nat): (s: seq<bool>)
    ensures |s| == n && forall k :: 0 <= k < n ==> !s[k]
  {
    seq(n, _ => false)
  }

  type Word = w: seq<bool> | |w| == 16 witness Zeros(16)

  const ZERO: Word := Zeros(16)

  /** 0x1021: the bits of 2^12, 2^5 and 1. */
  const POLY: Word := Zeros(16)[3 := true][10 := true][15 := true]

  function Xor(a: Word, b: Word): (r: Word)
    ensures forall k :: 0 <= k < 16 ==> r[k] == (a[k] != b[k])
  {
    seq(16, k requires 0 <= k < 16 => a[k] != b[k])
  }

  function ShiftLeft(w: Word): (r: Word)
  {
    w[1..] + [false]
  }

  /** One round of the program's inner loop. */
  function Shift(w: Word): (r: Word)
    ensures forall k :: 0 <= k < 15 ==> r[k] == (w[k + 1] != (w[0] && POLY[k]))
    ensures r[15] == w[0]
  {
    if w[0] then Xor(ShiftLeft(w), POLY) else ShiftLeft(w)
  }

  function Shifts(w: Word, n: nat): Word
  {
    if n == 0 then w else Shift(Shifts(w, n - 1))
  }

  function LeftBy(w: Word, n: nat): (r: Word)
    ensures forall k :: 0 <= k < 16 ==> r[k] == (k + n < 16 && w[k + n])
  {
    seq(16, k requires 0 <= k < 16 => k + n < 16 && w[k + n])
  }

  /** One step of the bit-serial division: the message bit meets the top of the register. */
  function Step(w: Word, b: bool): (r: Word)
    ensures forall k :: 0 <= k < 15 ==> r[k] == (w[k + 1] != ((w[0] != b) && POLY[k]))
    ensures r[15] == (w[0] != b)
  {
    if w[0] != b then Xor(ShiftLeft(w), POLY) else ShiftLeft(w)
  }

  /** The register, started at w, after the first k bits of s. */
  function Feed(w: Word, s: seq<bool>, k: nat): Word
    requires k <= |s|
  {
    if k == 0 then w else Step(Feed(w, s, k - 1), s[k - 1])
  }

  /** The CRC of a message. */
  function Crc(s: seq<bool>): Word { Feed(ZERO, s, |s|) }

  function BytesToBits(bytes: seq<nat>): (s: seq<bool>)
    ensures |s| == 8 * |bytes|
  {
    if bytes == [] then [] else BytesToBits(bytes[..|bytes| - 1]) + OfNat(bytes[|bytes| - 1], 8)
  }

  /** The word `byte << 8`. */
  function HighByte(byte: nat): Word { OfNat(byte, 8) + seq(8, _ => false) }

  lemma FeedOne(w: Word, s: seq<bool>, k: nat)
    requires k < |s|
    ensures Feed(w, s, k + 1) == Step(Feed(w, s, k), s[k])
  {
  }

  lemma {:induction false} FeedPrefix(w: Word, s: seq<bool>, t: seq<bool>, k: nat)
    requires k <= |s| && k <= |t|
    requires forall j :: 0 <= j < k ==> s[j] == t[j]
    ensures Feed(w, s, k) == Feed(w, t, k)
  {
    if k == 0 {
    } else {
      FeedPrefix(w, s, t, k - 1);
      FeedOne(w, s, k - 1);
      FeedOne(w, t, k - 1);
    }
  }

  lemma {:induction false} FeedAppend(w: Word, s: seq<bool>, t: seq<bool>, k: nat)
    requires k <= |t|
    ensures Feed(w, s + t, |s| + k) == Feed(Feed(w, s, |s|), t, k)
  {
    if k == 0 {
      FeedPrefix(w, s, s + t, |s|);
    } else {
      FeedAppend(w, s, t, k - 1);
      FeedOne(w, s + t, |s| + k - 1);
      FeedOne(Feed(w, s, |s|), t, k - 1);
    }
  }

  lemma XorZero(w: Word)
    ensures Xor(w, ZERO) == w && Xor(ZERO, w) == w
  {
    assert forall k :: 0 <= k < 16 ==> Xor(w, ZERO)[k] == w[k];
    assert forall k :: 0 <= k < 16 ==> Xor(ZERO, w)[k] == w[k];
  }

  /** The step is linear over xor. */
  lemma StepXor(v: Word, w: Word, a: bool, b: bool)
    ensures Step(Xor(v, w), a != b) == Xor(Step(v, a), Step(w, b))
  {
    var l, r := Step(Xor(v, w), a != b), Xor(Step(v, a), Step(w, b));
    assert forall k :: 0 <= k < 15 ==> l[k] == r[k];
    assert l[15] == r[15];
  }

  /**
   * Message bits may be xored into the top of the register ahead of time:
   * n shifts then consume the n top pending bits.
   */
  lemma {:induction false} PendingBits(c: Word, w: Word, n: nat)
    requires n <= 16
    ensures Shifts(Xor(c, w), n) == Xor(Feed(c, w, n), LeftBy(w, n))
  {
    if n == 0 {
      assert LeftBy(w, 0) == w;
    } else {
      PendingBits(c, w, n - 1);
      var f, p := Feed(c, w, n - 1), LeftBy(w, n - 1);
      assert p[0] == w[n - 1];
      PendingBit(f, p);
      var q, r := Xor(Step(f, p[0]), ShiftLeft(p)), Xor(Feed(c, w, n), LeftBy(w, n));
      assert forall k :: 0 <= k < 16 ==> ShiftLeft(p)[k] == LeftBy(w, n)[k];
      assert ShiftLeft(p) == LeftBy(w, n);
    }
  }

  lemma PendingBit(c: Word, w: Word)
    ensures Shift(Xor(c, w)) == Xor(Step(c, w[0]), ShiftLeft(w))
  {
    var l, r := Shift(Xor(c, w)), Xor(Step(c, w[0]), ShiftLeft(w));
    assert forall k :: 0 <= k < 15 ==> l[k] == r[k];
    assert l[15] == r[15];
  }

  /** Folding in a byte and shifting eight times is eight steps of the division. */
  lemma ByteAtOnce(c: Word, byte: nat)
    ensures Shifts(Xor(c, HighByte(byte)), 8) == Feed(c, OfNat(byte, 8), 8)
  {
    var w := HighByte(byte);
    PendingBits(c, w, 8);
    FeedPrefix(c, w, OfNat(byte, 8), 8);
    assert LeftBy(w, 8) == ZERO;
    XorZero(Feed(c, w, 8));
  }

  /** crc16XModem computes the remainder of the bit-serial division of the whole message. */
  method Crc16XModem(bytes: seq<nat>) returns (crc: Word)
    ensures crc == Crc(BytesToBits(bytes))
  {
    crc := ZERO;
    for j := 0 to |bytes|
      invariant crc == Crc(BytesToBits(bytes[..j]))
    {
      ghost var before := crc;
      crc := Xor(crc, HighByte(bytes[j]));
      ghost var start := crc;
      for i := 0 to 8
        invariant crc == Shifts(start, i)
      {
        crc := if crc[0] then Xor(ShiftLeft(crc), POLY) else ShiftLeft(crc);
      }
      ByteAtOnce(before, bytes[j]);
      FeedAppend(ZERO, BytesToBits(bytes[..j]), OfNat(bytes[j], 8), 8);
      assert bytes[..j + 1][..j] == bytes[..j];
    }
    assert bytes[..|bytes|] == bytes;
  }

  lemma ShiftZero(w: Word)
    ensures Shift(w) == ZERO <==> w == ZERO
  {
    if Shift(w) == ZERO {
      assert !w[0];
      assert forall k :: 1 <= k < 16 ==> w[k] == Shift(w)[k - 1];
      assert w == ZERO;
    }
  }

  /** Shifting is injective: no two registers merge. */
  lemma ShiftInjective(v: Word, w: Word)
    requires Shift(v) == Shift(w)
    ensures v == w
  {
    var s := Shift(v);
    assert v[0] == s[15] == w[0];
    forall k | 1 <= k < 16
      ensures v[k] == w[k]
    {
      assert s[k - 1] == (v[k] != (v[0] && POLY[k - 1]));
      assert s[k - 1] == (w[k] != (w[0] && POLY[k - 1]));
    }
  }

  lemma {:induction false} ShiftsInjective(v: Word, w: Word, n: nat)
    requires Shifts(v, n) == Shifts(w, n)
    ensures v == w
  {
    if n == 0 {
    } else {
      ShiftInjective(Shifts(v, n - 1), Shifts(w, n - 1));
      ShiftsInjective(v, w, n - 1);
    }
  }

  lemma {:induction false} ShiftsZero(n: nat)
    ensures Shifts(ZERO, n) == ZERO
  {
    if n == 0 {
    } else {
      ShiftsZero(n - 1);
      ShiftZero(ZERO);
    }
  }

  /** A burst of at most 16 changed bits, as a word with the burst at its top. */
  function Burst(d: seq<bool>): (w: Word)
    requires |d| <= 16
  {
    d + seq(16 - |d|, _ => false)
  }

  lemma BurstShiftedOut(d: seq<bool>)
    requires |d| <= 16
    ensures LeftBy(Burst(d), |d|) == ZERO
  {
    forall k | 0 <= k < 16
      ensures !LeftBy(Burst(d), |d|)[k]
    {
    }
  }

  /** Feeding at most 16 bits is xoring them into the top of the register and shifting. */
  lemma FeedBurst(c: Word, d: seq<bool>)
    requires |d| <= 16
    ensures Feed(c, d, |d|) == Shifts(Xor(c, Burst(d)), |d|)
  {
    var w := Burst(d);
    PendingBits(c, w, |d|);
    FeedPrefix(c, w, d, |d|);
    BurstShiftedOut(d);
    XorZero(Feed(c, w, |d|));
  }

  lemma CrcOfBurst(d: seq<bool>)
    requires |d| <= 16
    ensures Crc(d) == Shifts(Burst(d), |d|)
  {
    FeedBurst(ZERO, d);
    XorZero(Burst(d));
  }

  /** No burst of at most 16 changed bits is invisible to the CRC. */
  lemma BurstDetected(d: seq<bool>)
    requires |d| <= 16
    requires Crc(d) == ZERO
    ensures forall k :: 0 <= k < |d| ==> !d[k]
  {
    CrcOfBurst(d);
    ShiftsZero(|d|);
    ShiftsInjective(Burst(d), ZERO, |d|);
    forall k | 0 <= k < |d|
      ensures !d[k]
    {
      assert d[k] == Burst(d)[k];
    }
  }
}
