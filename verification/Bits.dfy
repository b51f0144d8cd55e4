/** Bit strings, most significant bit first, and the natural numbers they write. */
module Bits {

  function Pow2(w: nat): (p: nat)
    ensures p > 0
  {
    if w == 0 then 1 else 2 * Pow2(w - 1)
  }

  lemma Powers()
    ensures Pow2(5) == 32 && Pow2(8) == 256
  {
  }

  function Bit(b: bool): nat { if b then 1 else 0 }

  function Val(s: seq<bool>): nat
  {
    if s == [] then 0 else 2 * Val(s[..|s| - 1]) + Bit(s[|s| - 1])
  }

  function OfNat(n: nat, w: nat): (s: seq<bool>)
    ensures |s| == w
  {
    if w == 0 then [] else OfNat(n / 2, w - 1) + [n % 2 == 1]
  }

  /** One more bit at the end. */
  lemma ValBit(s: seq<bool>, b: bool)
    ensures Val(s + [b]) == 2 * Val(s) + Bit(b)
  {
    assert (s + [b])[..|s|] == s;
  }

  lemma OfNatBit(n: nat, w: nat, b: bool)
    ensures OfNat(2 * n + Bit(b), w + 1) == OfNat(n, w) + [b]
  {
    var m := 2 * n + Bit(b);
    assert m / 2 == n && (m % 2 == 1) == b;
  }

  /** The w-bit string of n writes n, whenever n fits. */
  lemma {:induction false} ValOfNat(n: nat, w: nat)
    requires n < Pow2(w)
    ensures Val(OfNat(n, w)) == n
  {
    if w == 0 {
    } else {
      ValOfNat(n / 2, w - 1);
      ValBit(OfNat(n / 2, w - 1), n % 2 == 1);
    }
  }

  /** Every bit string is the string of its own value. */
  lemma {:induction false} OfNatVal(s: seq<bool>)
    ensures Val(s) < Pow2(|s|)
    ensures OfNat(Val(s), |s|) == s
  {
    if s == [] {
    } else {
      var init, last := s[..|s| - 1], s[|s| - 1];
      OfNatVal(init);
      ValFits(init, last);
      OfNatBit(Val(init), |init|, last);
      assert s == init + [last];
    }
  }

  lemma ValFits(s: seq<bool>, b: bool)
    requires Val(s) < Pow2(|s|)
    ensures Val(s + [b]) == 2 * Val(s) + Bit(b) < Pow2(|s| + 1)
  {
    ValBit(s, b);
  }

  lemma {:induction false} ValAppend(a: seq<bool>, t: seq<bool>)
    ensures Val(a + t) == Val(a) * Pow2(|t|) + Val(t)
  {
    if t == [] {
      assert a + t == a;
    } else {
      var init, last := t[..|t| - 1], t[|t| - 1];
      ValAppend(a, init);
      ValBit(a + init, last);
      ValBit(init, last);
      assert t == init + [last] && a + t == (a + init) + [last];
      DoubleProduct(Val(a), Pow2(|init|));
    }
  }

  lemma DoubleProduct(a: nat, p: nat)
    ensures a * (2 * p) == 2 * (a * p)
  {
  }
}
