/**
 * What the CRC is: the remainder of the message, with 16 zero bits appended,
 * by x^16 + x^12 + x^5 + 1 over GF(2). Polynomials are bit strings, the highest
 * power first.
 */
module CrcPolynomial {
  import opened Bits
  import opened Crc16

  /** x^16 + x^12 + x^5 + 1. */
  const GENERATOR: seq<bool> := seq(17, i => 16 - i in {16, 12, 5, 0})

  function Add(a: seq<bool>, b: seq<bool>): (r: seq<bool>)
    requires |a| == |b|
    ensures |r| == |a|
  {
    seq(|a|, i requires 0 <= i < |a| => a[i] != b[i])
  }

  function NoBits(n: nat): (r: seq<bool>)
    ensures |r| == n
  {
    seq(n, _ => false)
  }

  /** The product q * g: one more coefficient c of q doubles what was there and adds c * g. */
  function Mul(q: seq<bool>, g: seq<bool>): (r: seq<bool>)
    requires g != []
    ensures |r| == |q| + |g| - 1
  {
    if q == [] then NoBits(|g| - 1)
    else
      var n := |q| - 1;
      Add(Mul(q[..n], g) + [false], NoBits(n) + (if q[n] then g else NoBits(|g|)))
  }

  lemma MulOneMore(q: seq<bool>, c: bool, g: seq<bool>)
    requires g != []
    ensures Mul(q + [c], g) == Add(Mul(q, g) + [false], NoBits(|q|) + (if c then g else NoBits(|g|)))
  {
    assert (q + [c])[..|q|] == q;
  }

  /** One step of the division is one more coefficient of the quotient. */
  lemma StepDivides(w: Word, b: bool)
    ensures var c := w[0] != b;
      Add(w + [false], if c then GENERATOR else NoBits(17)) == [b] + Step(w, b)
  {
    var c, r := w[0] != b, Step(w, b);
    var l := Add(w + [false], if c then GENERATOR else NoBits(17));
    assert l[0] == b;
    forall k | 0 <= k < 15 ensures l[k + 1] == r[k] {
      assert POLY[k] == GENERATOR[k + 1];
    }
    assert l[16] == r[15];
  }

  /** Adding below a common prefix. */
  lemma AddBelow(s: seq<bool>, a: seq<bool>, b: seq<bool>)
    requires |a| == |b|
    ensures Add(s + a, NoBits(|s|) + b) == s + Add(a, b)
  {
  }

  lemma CrcOfOneMore(s: seq<bool>, b: bool)
    ensures Crc(s + [b]) == Step(Crc(s), b)
  {
    FeedPrefix(ZERO, s, s + [b], |s|);
    FeedOne(ZERO, s + [b], |s|);
  }

  /** A message followed by its CRC is a multiple of the generator. */
  lemma {:induction false} CrcDivides(s: seq<bool>) returns (q: seq<bool>)
    ensures |q| == |s| && Mul(q, GENERATOR) == s + Crc(s)
  {
    if s == [] {
      q := [];
    } else {
      var init, b := s[..|s| - 1], s[|s| - 1];
      var w := Crc(init);
      var q' := CrcDivides(init);
      q := q' + [w[0] != b];
      OneMoreBit(init, b, w, q');
      CrcOfOneMore(init, b);
      assert s == init + [b];
    }
  }

  lemma OneMoreBit(s: seq<bool>, b: bool, w: Word, q: seq<bool>)
    requires |q| == |s| && Mul(q, GENERATOR) == s + w
    ensures Mul(q + [w[0] != b], GENERATOR) == s + [b] + Step(w, b)
  {
    MulOneMore(q, w[0] != b, GENERATOR);
    StepDivides(w, b);
    BringDown(s, b, w, Step(w, b), if w[0] != b then GENERATOR else NoBits(17));
  }

  lemma BringDown(s: seq<bool>, b: bool, w: seq<bool>, r: seq<bool>, g: seq<bool>)
    requires |w| + 1 == |g| && Add(w + [false], g) == [b] + r
    ensures Add(s + w + [false], NoBits(|s|) + g) == s + [b] + r
  {
    Regroup(s, w, [false]);
    AddBelow(s, w + [false], g);
    Regroup(s, [b], r);
  }

  lemma Regroup(a: seq<bool>, b: seq<bool>, c: seq<bool>)
    ensures a + b + c == a + (b + c)
  {
  }

  /** The leading bits of a multiple tell the quotient. */
  lemma {:induction false} QuotientIsUnique(p: seq<bool>, q: seq<bool>)
    requires |p| == |q| && forall i :: 0 <= i < |p| ==> Mul(p, GENERATOR)[i] == Mul(q, GENERATOR)[i]
    ensures p == q
  {
    if p == [] {
    } else {
      var n := |p| - 1;
      var p', q' := p[..n], q[..n];
      assert p == p' + [p[n]] && q == q' + [q[n]];
      MulOneMore(p', p[n], GENERATOR);
      MulOneMore(q', q[n], GENERATOR);
      LeadingBits(Mul(p', GENERATOR), p[n], n);
      LeadingBits(Mul(q', GENERATOR), q[n], n);
      QuotientIsUnique(p', q');
    }
  }

  lemma LeadingBits(m: seq<bool>, c: bool, n: nat)
    requires |m| == n + 16
    ensures var r := Add(m + [false], NoBits(n) + (if c then GENERATOR else NoBits(17)));
      (forall i :: 0 <= i < n ==> r[i] == m[i]) && r[n] == (m[n] != c)
  {
  }

  /** The message and these 16 bits are a multiple of x^16 + x^12 + x^5 + 1. */
  ghost predicate IsMultiple(s: seq<bool>, r: seq<bool>)
  {
    exists q :: |q| == |s| && Mul(q, seq(17, i => 16 - i in {16, 12, 5, 0})) == s + r
  }

  /** The CRC of a message is the only 16 bits that make it one. */
  lemma CrcIsRemainder(s: seq<bool>, r: seq<bool>)
    requires |r| == 16
    ensures r == Crc(s) <==> IsMultiple(s, r)
  {
    var q := CrcDivides(s);
    assert GENERATOR == seq(17, i => 16 - i in {16, 12, 5, 0});
    if p :| |p| == |s| && Mul(p, GENERATOR) == s + r {
      QuotientIsUnique(p, q);
      assert r == (s + r)[|s|..] && Crc(s) == (s + Crc(s))[|s|..];
    }
    if r == Crc(s) {
      assert Mul(q, seq(17, i => 16 - i in {16, 12, 5, 0})) == s + r;
    }
  }
}
