/**
 * Stellar account ids (Strkeys, SEP-0023): base32 (RFC 4648, section 6) of a
 * version byte, a 32-byte key and the CRC16 of both, low byte first.
 */
module AccountId {
  import opened Arithmetic
  import opened Bits
  import opened Crc16

  const ALPHABET: string := "ABCDEFGHIJKLMNOPQRSTUVWXYZ234567"
  const VERSION_BYTE: nat := 48

  /** BASE32_ALPHABET.indexOf */
  function IndexOf(c: char): (i: int)
    ensures -1 <= i < 32
  {
    if 'A' <= c <= 'Z' then c as int - 'A' as int
    else if '2' <= c <= '7' then c as int - '2' as int + 26
    else -1
  }

  function Symbol(i: nat): (c: char)
    requires i < 32
    ensures IndexOf(c) == i
  {
    if i < 26 then ('A' as int + i) as char else ('2' as int + i - 26) as char
  }

  lemma SymbolOfIndex(c: char)
    requires IndexOf(c) >= 0
    ensures Symbol(IndexOf(c)) == c
  {
  }

  lemma AlphabetInOrder(i: nat)
    requires i < 32
    ensures ALPHABET[i] == Symbol(i)
  {
    if i < 8 { assert i in {0, 1, 2, 3, 4, 5, 6, 7}; }
    else if i < 16 { assert i in {8, 9, 10, 11, 12, 13, 14, 15}; }
    else if i < 24 { assert i in {16, 17, 18, 19, 20, 21, 22, 23}; }
    else { assert i in {24, 25, 26, 27, 28, 29, 30, 31}; }
  }

  predicate Base32Text(s: string) { forall k :: 0 <= k < |s| ==> IndexOf(s[k]) >= 0 }

  /** ACCOUNT_ID_PATTERN: G followed by 55 symbols. */
  predicate MatchesPattern(s: string) { |s| == 56 && s[0] == 'G' && Base32Text(s) }

  /** The bits of a base32 text, five to a symbol. */
  function SymbolBits(s: string): (b: seq<bool>)
    requires Base32Text(s)
    ensures |b| == 5 * |s|
  {
    if s == [] then [] else SymbolBits(s[..|s| - 1]) + OfNat(IndexOf(s[|s| - 1]), 5)
  }

  function Base32(b: seq<bool>): (s: string)
    requires |b| % 5 == 0
    ensures 5 * |s| == |b| && Base32Text(s)
  {
    if b == [] then []
    else
      OfNatVal(b[|b| - 5..]);
      Powers();
      Base32(b[..|b| - 5]) + [Symbol(Val(b[|b| - 5..]))]
  }

  /** One more symbol. */
  lemma SymbolBitsAppend(s: string, c: char)
    requires Base32Text(s) && IndexOf(c) >= 0
    ensures Base32Text(s + [c]) && SymbolBits(s + [c]) == SymbolBits(s) + OfNat(IndexOf(c), 5)
  {
    assert (s + [c])[..|s|] == s;
  }

  /** Five more bits. */
  lemma Base32Append(b: seq<bool>, w: seq<bool>)
    requires |b| % 5 == 0 && |w| == 5
    ensures Val(w) < 32 && Base32(b + w) == Base32(b) + [Symbol(Val(w))]
  {
    assert (b + w)[..|b + w| - 5] == b && (b + w)[|b + w| - 5..] == w;
    OfNatVal(w);
    Powers();
  }

  /** The symbol of five bits stands for them. */
  lemma GroupOfSymbol(w: seq<bool>)
    requires |w| == 5
    ensures Val(w) < 32 && IndexOf(Symbol(Val(w))) == Val(w) && OfNat(Val(w), 5) == w
  {
    OfNatVal(w);
    Powers();
  }

  lemma SplitGroups(b: seq<bool>)
    requires |b| % 5 == 0 && b != []
    ensures var init, w := b[..|b| - 5], b[|b| - 5..];
      b == init + w && Val(w) < 32 && Base32(b) == Base32(init) + [Symbol(Val(w))]
  {
    Base32Append(b[..|b| - 5], b[|b| - 5..]);
    assert b == b[..|b| - 5] + b[|b| - 5..];
  }

  lemma {:induction false} BitsOfBase32(b: seq<bool>, s: string)
    requires |b| % 5 == 0 && s == Base32(b)
    ensures SymbolBits(s) == b
    decreases |b|
  {
    if b == [] {
    } else {
      SplitGroups(b);
      var init, w := b[..|b| - 5], b[|b| - 5..];
      var before := Base32(init);
      BitsOfBase32(init, before);
      BitsOfMore(before, init, w, s, b);
    }
  }

  lemma BitsOfMore(before: string, init: seq<bool>, w: seq<bool>, s: string, b: seq<bool>)
    requires |w| == 5 && Val(w) < 32 && Base32Text(before) && SymbolBits(before) == init
    requires s == before + [Symbol(Val(w))] && b == init + w
    ensures Base32Text(s) && SymbolBits(s) == b
  {
    GroupOfSymbol(w);
    SymbolBitsAppend(before, Symbol(Val(w)));
  }

  /** Five bits that stand for a symbol are written as that symbol. */
  lemma SymbolOfGroup(c: char)
    requires IndexOf(c) >= 0
    ensures var w := OfNat(IndexOf(c), 5); Val(w) == IndexOf(c) && Symbol(Val(w)) == c
  {
    Powers();
    ValOfNat(IndexOf(c), 5);
    SymbolOfIndex(c);
  }

  lemma SplitText(s: string)
    requires Base32Text(s) && s != []
    ensures var init, c := s[..|s| - 1], s[|s| - 1];
      && s == init + [c] && Base32Text(init) && IndexOf(c) >= 0
      && SymbolBits(s) == SymbolBits(init) + OfNat(IndexOf(c), 5)
  {
  }

  lemma {:induction false} Base32OfBits(s: string, b: seq<bool>)
    requires Base32Text(s) && b == SymbolBits(s)
    ensures Base32(b) == s
    decreases |s|
  {
    if s == [] {
    } else {
      SplitText(s);
      var init, c := s[..|s| - 1], s[|s| - 1];
      var before := SymbolBits(init);
      Base32OfBits(init, before);
      SymbolOfGroup(c);
      Base32Append(before, OfNat(IndexOf(c), 5));
    }
  }

  /** The specification, on the 280 bits of the text: version byte, key, checksum low byte first. */
  predicate Accepted(s: string)
  {
    MatchesPattern(s) && AcceptedBits(SymbolBits(s))
  }

  predicate AcceptedBits(b: seq<bool>)
    requires |b| == 280
  {
    b[..8] == OfNat(VERSION_BYTE, 8) && Crc(b[..264]) == b[272..] + b[264..272]
  }

  // ---- the decoder, with JavaScript's 32-bit shifts ------------------------------

  /** The value JavaScript's bitwise operators give back for an integer. */
  function ToInt32(n: int): int
  {
    var m := n % 0x1_0000_0000;
    if m >= 0x8000_0000 then m - 0x1_0000_0000 else m
  }

  lemma ToInt32Residue(n: int) returns (q: int)
    ensures ToInt32(n) == n - 0x1_0000_0000 * q
  {
    q := n / 0x1_0000_0000 + if n % 0x1_0000_0000 >= 0x8000_0000 then 1 else 0;
  }

  /** Numbers a multiple of 2^32 apart wrap to the same word. */
  lemma SameWord(a: int, b: int, q: int)
    requires a - b == 0x1_0000_0000 * q
    ensures ToInt32(a) == ToInt32(b)
  {
    SameResidue(b, 0x1_0000_0000, q);
  }

  /** The bits that a shift left free can be filled without a carry. */
  lemma AddLowBits(a: nat, d: nat)
    requires a % 32 == 0 && d < 32
    ensures ToInt32(a + d) == ToInt32(a) + d
  {
    assert (a % 0x1_0000_0000) % 32 == 0;
    assert (a + d) % 0x1_0000_0000 == a % 0x1_0000_0000 + d;
  }

  /** Shifting five bits into the wrapped buffer wraps the unbounded accumulator the same way. */
  lemma WrapShift(acc: nat, d: nat)
    requires d < 32
    ensures ToInt32(ToInt32(acc) * 32) + d == ToInt32(acc * 32 + d)
  {
    var q := ToInt32Residue(acc);
    SameWord(acc * 32, ToInt32(acc) * 32, 32 * q);
    AddLowBits(acc * 32, d);
  }

  /** The byte cut out of the wrapped buffer is the one cut out of the unbounded accumulator. */
  lemma WrapByte(acc: nat, bits: nat)
    requires bits <= 4
    ensures (ToInt32(acc) / Pow2(bits)) % 256 == (acc / Pow2(bits)) % 256
  {
    var q := ToInt32Residue(acc);
    var p := Pow2(bits);
    assert Pow2(0) == 1 && Pow2(1) == 2 && Pow2(2) == 4 && Pow2(3) == 8 && Pow2(4) == 16;
    var f := [0x100_0000, 0x80_0000, 0x40_0000, 0x20_0000, 0x10_0000][bits];
    assert p * (256 * f) == 0x1_0000_0000;
    assert ToInt32(acc) == acc + p * (256 * f * -q) by {
      assert p * (256 * f * -q) == (p * (256 * f)) * -q;
    }
    DivideMultiple(acc, p, 256 * f * -q);
    assert 256 * f * -q == 256 * (f * -q);
    SameResidue(acc / p, 256, f * -q);
  }

  /** Cutting a byte out of the value of a bit string that goes on after it. */
  lemma WindowByte(head: seq<bool>, w: seq<bool>, tail: seq<bool>)
    requires |w| == 8
    ensures (Val(head + w + tail) / Pow2(|tail|)) % 256 == Val(w)
  {
    ValAppend(head + w, tail);
    OfNatVal(tail);
    DivideOut(Val(head + w), Pow2(|tail|), Val(tail));
    LastByte(head, w);
  }

  lemma LowByte(h: nat, v: nat)
    requires v < 256
    ensures (h * 256 + v) % 256 == v
  {
  }

  lemma LastByte(head: seq<bool>, w: seq<bool>)
    requires |w| == 8
    ensures Val(head + w) % 256 == Val(w)
  {
    ValAppend(head, w);
    OfNatVal(w);
    Powers();
    LowByte(Val(head), Val(w));
  }

  lemma PushSymbol(s: string, i: nat)
    requires Base32Text(s) && i < |s|
    ensures SymbolBits(s[..i + 1])[..5 * i] == SymbolBits(s[..i])
    ensures ToInt32(Val(SymbolBits(s[..i + 1]))) == ToInt32(ToInt32(Val(SymbolBits(s[..i]))) * 32) + IndexOf(s[i])
  {
    var before, d := SymbolBits(s[..i]), IndexOf(s[i]);
    SymbolsUnfold(s, i);
    WrapShift(Val(before), d);
    GroupValue(before, d);
  }

  lemma SymbolsUnfold(s: string, i: nat)
    requires Base32Text(s) && i < |s|
    ensures SymbolBits(s[..i + 1]) == SymbolBits(s[..i]) + OfNat(IndexOf(s[i]), 5)
  {
    SymbolBitsAppend(s[..i], s[i]);
    assert s[..i + 1] == s[..i] + [s[i]];
  }

  /** Five more bits. */
  lemma GroupValue(before: seq<bool>, d: nat)
    requires d < 32
    ensures Val(before + OfNat(d, 5)) == Val(before) * 32 + d
  {
    ValAppend(before, OfNat(d, 5));
    Powers();
    ValOfNat(d, 5);
  }

  lemma PushByte(bytes: seq<nat>, byte: nat, b: seq<bool>)
    requires 8 * |bytes| + 8 <= |b|
    requires BytesToBits(bytes) == b[..8 * |bytes|]
    requires OfNat(byte, 8) == b[8 * |bytes|..8 * |bytes| + 8]
    ensures BytesToBits(bytes + [byte]) == b[..8 * |bytes| + 8]
  {
    AppendByte(bytes, byte);
    JoinParts(b, 8 * |bytes|, 8 * |bytes| + 8, BytesToBits(bytes), OfNat(byte, 8));
  }

  lemma AppendByte(bytes: seq<nat>, byte: nat)
    ensures BytesToBits(bytes + [byte]) == BytesToBits(bytes) + OfNat(byte, 8)
  {
    assert (bytes + [byte])[..|bytes|] == bytes;
  }

  lemma JoinParts(b: seq<bool>, n: nat, m: nat, first: seq<bool>, second: seq<bool>)
    requires n <= m <= |b| && first == b[..n] && second == b[n..m]
    ensures first + second == b[..m]
  {
  }

  lemma PrefixOfPrefix(a: seq<bool>, b: seq<bool>, n: nat)
    requires n <= |a| <= |b| && b[..|a|] == a
    ensures a[..n] == b[..n]
  {
    assert a[..n] == b[..|a|][..n];
  }

  ghost predicate DecodedSoFar(value: string, i: nat, bytes: seq<nat>, buffer: int, bits: nat)
    requires Base32Text(value) && i <= |value|
  {
    && 5 * i == 8 * |bytes| + bits
    && buffer == ToInt32(Val(SymbolBits(value[..i])))
    && BytesToBits(bytes) == SymbolBits(value[..i])[..8 * |bytes|]
    && forall k :: 0 <= k < |bytes| ==> bytes[k] < 256
  }

  lemma ShiftIn(value: string, i: nat, bytes: seq<nat>, buffer: int, bits: nat)
    requires Base32Text(value) && i < |value|
    requires DecodedSoFar(value, i, bytes, buffer, bits)
    ensures DecodedSoFar(value, i + 1, bytes, ToInt32(buffer * 32) + IndexOf(value[i]), bits + 5)
  {
    PushSymbol(value, i);
    PrefixOfPrefix(SymbolBits(value[..i]), SymbolBits(value[..i + 1]), 8 * |bytes|);
  }

  lemma CutOut(value: string, i: nat, bytes: seq<nat>, buffer: int, bits: nat)
    requires Base32Text(value) && i <= |value| && 8 <= bits <= 12
    requires DecodedSoFar(value, i, bytes, buffer, bits)
    ensures DecodedSoFar(value, i, bytes + [(buffer / Pow2(bits - 8)) % 256], buffer, bits - 8)
  {
    var b := SymbolBits(value[..i]);
    var byte := (buffer / Pow2(bits - 8)) % 256;
    var n := 8 * |bytes|;
    var head, w, tail := b[..n], b[n..n + 8], b[n + 8..];
    assert b == head + w + tail;
    WrapByte(Val(b), bits - 8);
    WindowByte(head, w, tail);
    OfNatVal(w);
    PushByte(bytes, byte, b);
  }

  /** The decoding loop: groups of five bits in, whole bytes out. */
  method DecodeBytes(value: string) returns (bytes: seq<nat>, buffer: int, bits: nat)
    requires MatchesPattern(value)
    ensures |bytes| == 35 && bits == 0 && BytesToBits(bytes) == SymbolBits(value)
    ensures forall k :: 0 <= k < 35 ==> bytes[k] < 256
  {
    bytes, buffer, bits := [], 0, 0;
    for i := 0 to |value|
      invariant bits < 8 && DecodedSoFar(value, i, bytes, buffer, bits)
    {
      ShiftIn(value, i, bytes, buffer, bits);
      buffer := ToInt32(buffer * 32) + IndexOf(value[i]);
      bits := bits + 5;
      if bits >= 8 {
        CutOut(value, i + 1, bytes, buffer, bits);
        bits := bits - 8;
        bytes := bytes + [(buffer / Pow2(bits)) % 256];
      }
    }
    assert value[..|value|] == value;
    assert SymbolBits(value)[..280] == SymbolBits(value);
  }

  method IsValidAccountId(value: string) returns (ok: bool)
    ensures ok <==> Accepted(value)
  {
    if !MatchesPattern(value) {
      return false;
    }
    var bytes, buffer, bits := DecodeBytes(value);
    if |bytes| != 35 || buffer % Pow2(bits) != 0 {
      return false;
    }
    DecodedFields(bytes, SymbolBits(value));
    if bytes[0] != VERSION_BYTE {
      return false;
    }
    var crc := Crc16XModem(bytes[..33]);
    ok := crc == OfNat(bytes[34], 8) + OfNat(bytes[33], 8);
  }

  lemma {:induction false} BytesPrefix(bytes: seq<nat>, n: nat)
    requires n <= |bytes|
    ensures BytesToBits(bytes[..n]) == BytesToBits(bytes)[..8 * n]
  {
    if n == |bytes| {
      assert bytes[..n] == bytes;
    } else {
      var rest := bytes[..|bytes| - 1];
      BytesPrefix(rest, n);
      assert rest[..n] == bytes[..n];
    }
  }

  lemma ByteBits(bytes: seq<nat>, k: nat)
    requires k < |bytes|
    ensures BytesToBits(bytes)[8 * k..8 * k + 8] == OfNat(bytes[k], 8)
  {
    BytesPrefix(bytes, k + 1);
    assert bytes[..k + 1][..k] == bytes[..k];
    assert BytesToBits(bytes[..k + 1]) == BytesToBits(bytes[..k]) + OfNat(bytes[k], 8);
    SuffixOfPrefix(BytesToBits(bytes), 8 * k, 8 * k + 8);
  }

  lemma SuffixOfPrefix(b: seq<bool>, m: nat, n: nat)
    requires m <= n <= |b|
    ensures b[m..n] == b[..n][m..]
  {
  }

  lemma DecodedFields(bytes: seq<nat>, b: seq<bool>)
    requires |bytes| == 35 && BytesToBits(bytes) == b
    requires forall k :: 0 <= k < 35 ==> bytes[k] < 256
    ensures bytes[0] == VERSION_BYTE <==> b[..8] == OfNat(VERSION_BYTE, 8)
    ensures BytesToBits(bytes[..33]) == b[..264]
    ensures OfNat(bytes[33], 8) == b[264..272] && OfNat(bytes[34], 8) == b[272..]
  {
    BytesPrefix(bytes, 33);
    ByteBits(bytes, 0);
    ByteBits(bytes, 33);
    ByteBits(bytes, 34);
    Powers();
    ValOfNat(bytes[0], 8);
    ValOfNat(VERSION_BYTE, 8);
    assert b[0..8] == b[..8] && b[272..280] == b[272..];
  }
}
