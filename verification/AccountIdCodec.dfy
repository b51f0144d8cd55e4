/** The accepted account ids are exactly the encodings of keys, and damaged ones are rejected. */
module AccountIdCodec {
  import opened Bits
  import opened Crc16
  import opened AccountId
  import opened CrcPolynomial

  predicate Key(key: seq<nat>) { |key| == 32 && forall k :: 0 <= k < 32 ==> key[k] < 256 }

  /** Strkey encoding: version byte, key, CRC16 low byte first, in base32. */
  function Encode(key: seq<nat>): string
    requires Key(key)
  {
    Base32(StrkeyBits(key))
  }

  function StrkeyBits(key: seq<nat>): (b: seq<bool>)
    requires Key(key)
    ensures |b| == 280
  {
    var payload := [VERSION_BYTE] + key;
    var crc := Crc(BytesToBits(payload));
    BytesToBits(payload + [Val(crc[8..]), Val(crc[..8])])
  }

  function BytesOf(b: seq<bool>): (bytes: seq<nat>)
    requires |b| % 8 == 0
    ensures 8 * |bytes| == |b|
  {
    if b == [] then [] else BytesOf(b[..|b| - 8]) + [Val(b[|b| - 8..])]
  }

  lemma BytesOfAppend(b: seq<bool>, last: seq<bool>)
    requires |b| % 8 == 0 && |last| == 8
    ensures BytesOf(b + last) == BytesOf(b) + [Val(last)]
  {
    assert (b + last)[..|b + last| - 8] == b && (b + last)[|b + last| - 8..] == last;
  }

  lemma {:induction false} BitsOfBytesOf(b: seq<bool>)
    requires |b| % 8 == 0
    ensures BytesToBits(BytesOf(b)) == b
  {
    if b == [] {
    } else {
      var init, last := b[..|b| - 8], b[|b| - 8..];
      assert b == init + last;
      BytesOfAppend(init, last);
      BitsOfBytesOf(init);
      AppendByte(BytesOf(init), Val(last));
      OfNatVal(last);
    }
  }

  lemma {:induction false} BytesOfRange(b: seq<bool>)
    requires |b| % 8 == 0
    ensures forall k :: 0 <= k < |BytesOf(b)| ==> BytesOf(b)[k] < 256
  {
    if b == [] {
    } else {
      BytesOfRange(b[..|b| - 8]);
      OfNatVal(b[|b| - 8..]);
      Powers();
    }
  }

  lemma {:induction false} BytesInjective(a: seq<nat>, b: seq<nat>)
    requires BytesToBits(a) == BytesToBits(b)
    requires forall k :: 0 <= k < |a| ==> a[k] < 256
    requires forall k :: 0 <= k < |b| ==> b[k] < 256
    ensures a == b
  {
    assert 8 * |a| == 8 * |b|;
    forall k | 0 <= k < |a|
      ensures a[k] == b[k]
    {
      ByteBits(a, k);
      ByteBits(b, k);
      Powers();
      ValOfNat(a[k], 8);
      ValOfNat(b[k], 8);
    }
  }

  /** The three fields of the encoding. */
  lemma StrkeyFields(key: seq<nat>)
    requires Key(key)
    ensures var b := StrkeyBits(key);
      && b[..264] == BytesToBits([VERSION_BYTE] + key)
      && b[..8] == OfNat(VERSION_BYTE, 8)
      && Crc(b[..264]) == b[272..] + b[264..272]
  {
    var payload := [VERSION_BYTE] + key;
    var crc := Crc(BytesToBits(payload));
    var bytes := payload + [Val(crc[8..]), Val(crc[..8])];
    var b := BytesToBits(bytes);
    OfNatVal(crc[8..]);
    OfNatVal(crc[..8]);
    BytesPrefix(bytes, 33);
    assert bytes[..33] == payload;
    ByteBits(bytes, 0);
    ByteBits(bytes, 33);
    ByteBits(bytes, 34);
    assert b[0..8] == b[..8] && b[272..280] == b[272..];
    assert crc == crc[..8] + crc[8..];
  }

  lemma SplitBits(b: seq<bool>)
    requires |b| == 280
    ensures b == b[..264] + (b[264..272] + b[272..])
  {
  }

  /** Accepted bits are determined by the key part. */
  lemma AcceptedBitsAreStrkey(b: seq<bool>, key: seq<nat>)
    requires |b| == 280 && AcceptedBits(b) && Key(key)
    requires b[..264] == BytesToBits([VERSION_BYTE] + key)
    ensures StrkeyBits(key) == b
  {
    var e := StrkeyBits(key);
    StrkeyFields(key);
    SameChecksum(e[272..], e[264..272], b[272..], b[264..272]);
    SplitBits(e);
    SplitBits(b);
  }

  lemma SameChecksum(h: seq<bool>, l: seq<bool>, h': seq<bool>, l': seq<bool>)
    requires |h| == |h'| && h + l == h' + l'
    ensures h == h' && l == l'
  {
    assert h == (h + l)[..|h|] && l == (h + l)[|h|..];
    assert h' == (h' + l')[..|h'|] && l' == (h' + l')[|h'|..];
  }

  lemma PayloadKey(p: seq<bool>) returns (key: seq<nat>)
    requires |p| == 264 && p[..8] == OfNat(VERSION_BYTE, 8)
    ensures Key(key) && BytesToBits([VERSION_BYTE] + key) == p
  {
    var bytes := BytesOf(p);
    BitsOfBytesOf(p);
    BytesOfRange(p);
    key := bytes[1..];
    ByteBits(bytes, 0);
    assert p[0..8] == p[..8];
    Powers();
    ValOfNat(bytes[0], 8);
    ValOfNat(VERSION_BYTE, 8);
    assert bytes == [VERSION_BYTE] + key;
  }

  /** Only the encodings of 32-byte keys are accepted. */
  lemma AcceptedIsEncoded(s: string) returns (key: seq<nat>)
    requires Accepted(s)
    ensures Key(key) && s == Encode(key)
  {
    var b := SymbolBits(s);
    assert b[..264][..8] == b[..8];
    key := PayloadKey(b[..264]);
    AcceptedBitsAreStrkey(b, key);
    Base32OfBits(s, SymbolBits(s));
  }

  /** Every encoding of a 32-byte key is accepted. */
  lemma EncodedIsAccepted(key: seq<nat>)
    requires Key(key)
    ensures Accepted(Encode(key))
  {
    var b := StrkeyBits(key);
    var s := Encode(key);
    StrkeyFields(key);
    BitsOfBase32(b, Base32(b));
    FirstSymbol(s);
  }

  /** Version byte 48 makes the first symbol G. */
  lemma FirstSymbol(s: string)
    requires Base32Text(s) && |s| == 56
    requires SymbolBits(s)[..8] == OfNat(VERSION_BYTE, 8)
    ensures s[0] == 'G'
  {
    FirstFive(s);
    var five := OfNat(VERSION_BYTE, 8)[..5];
    assert five == SymbolBits(s)[..8][..5] == SymbolBits(s)[..5];
    assert five == [false, false, true, true, false];
    var d := IndexOf(s[0]);
    Powers();
    ValOfNat(d, 5);
    ValOfNat(6, 5);
    assert OfNat(6, 5) == five;
    SymbolOfIndex(s[0]);
  }

  lemma {:induction false} FirstFive(s: string)
    requires Base32Text(s) && |s| > 0
    ensures SymbolBits(s)[..5] == OfNat(IndexOf(s[0]), 5)
  {
    if |s| > 1 {
      FirstFive(s[..|s| - 1]);
    }
  }

  /** isValidAccountId accepts exactly the encodings of 32-byte keys. */
  lemma AcceptedIffEncoded(s: string)
    ensures Accepted(s) <==> exists key :: Key(key) && s == Encode(key)
  {
    if Accepted(s) {
      var key := AcceptedIsEncoded(s);
    }
    forall key | Key(key) && s == Encode(key)
      ensures Accepted(s)
    {
      EncodedIsAccepted(key);
    }
  }

  /** The text writes these bits, five to a symbol. */
  ghost predicate Writes(s: string, b: seq<bool>)
  {
    && |b| == 5 * |s|
    && forall k :: 0 <= k < |s| ==> WritesFive(s[k], b[5 * k..5 * k + 5])
  }

  predicate WritesFive(c: char, five: seq<bool>)
  {
    Val(five) < 32 && c == "ABCDEFGHIJKLMNOPQRSTUVWXYZ234567"[Val(five)]
  }

  lemma WrittenFive(c: char, five: seq<bool>)
    requires |five| == 5
    ensures WritesFive(c, five) <==> IndexOf(c) >= 0 && OfNat(IndexOf(c), 5) == five
  {
    Powers();
    OfNatVal(five);
    AlphabetInOrder(Val(five));
    if IndexOf(c) >= 0 {
      SymbolOfIndex(c);
      AlphabetInOrder(IndexOf(c));
      ValOfNat(IndexOf(c), 5);
    }
  }

  /** A text writes at most one bit string: the one it is decoded to. */
  lemma {:induction false} WrittenBits(s: string, b: seq<bool>)
    requires |b| == 5 * |s|
    ensures Writes(s, b) <==> Base32Text(s) && SymbolBits(s) == b
  {
    if Writes(s, b) {
      forall k | 0 <= k < |s| ensures IndexOf(s[k]) >= 0 {
        WrittenFive(s[k], b[5 * k..5 * k + 5]);
      }
      forall j | 0 <= j < |b| ensures SymbolBits(s)[j] == b[j] {
        SymbolWindow(s, j / 5);
        WrittenFive(s[j / 5], b[5 * (j / 5)..5 * (j / 5) + 5]);
        BitOfGroup(SymbolBits(s), j / 5, j);
        BitOfGroup(b, j / 5, j);
      }
    } else if Base32Text(s) && SymbolBits(s) == b {
      forall k | 0 <= k < |s| ensures WritesFive(s[k], b[5 * k..5 * k + 5]) {
        SymbolWindow(s, k);
        WrittenFive(s[k], b[5 * k..5 * k + 5]);
      }
    }
  }

  /**
   * 280 bits: the byte 48, the key, and 16 bits, low byte first,
   * that make all of it a multiple of x^16 + x^12 + x^5 + 1.
   */
  ghost predicate IsStrkey(b: seq<bool>)
  {
    && |b| == 280 && b[..8] == [false, false, true, true, false, false, false, false]
    && IsMultiple(b[..264], b[272..] + b[264..272])
  }

  lemma StrkeyIffAccepted(b: seq<bool>)
    requires |b| == 280
    ensures IsStrkey(b) <==> AcceptedBits(b)
  {
    Byte48();
    CrcIsRemainder(b[..264], b[272..] + b[264..272]);
  }

  lemma Byte48()
    ensures OfNat(VERSION_BYTE, 8) == [false, false, true, true, false, false, false, false]
  {
    FirstFiveOf48();
    LastBit(12, 5);
    LastBit(24, 6);
    LastBit(48, 7);
  }

  lemma FirstFiveOf48()
    ensures OfNat(6, 5) == [false, false, true, true, false]
  {
    LastBit(0, 0);
    LastBit(0, 1);
    LastBit(1, 2);
    LastBit(3, 3);
    LastBit(6, 4);
  }

  lemma {:induction false} LastBit(n: nat, w: nat)
    ensures OfNat(n, w + 1) == OfNat(n / 2, w) + [n % 2 == 1]
  {
  }

  /** isValidAccountId accepts exactly the base32 texts of 56 symbols whose bits are a Strkey's. */
  lemma AcceptedIffStrkey(s: string)
    ensures Accepted(s) <==> |s| == 56 && exists b :: Writes(s, b) && IsStrkey(b)
  {
    if Accepted(s) {
      WrittenBits(s, SymbolBits(s));
      StrkeyIffAccepted(SymbolBits(s));
    }
    if b :| |s| == 56 && Writes(s, b) && IsStrkey(b) {
      WrittenBits(s, b);
      StrkeyIffAccepted(b);
      Byte48();
      FirstSymbol(s);
    }
  }

  /** The key of an accepted id is unique. */
  lemma KeyIsUnique(k1: seq<nat>, k2: seq<nat>)
    requires Key(k1) && Key(k2)
    requires Encode(k1) == Encode(k2)
    ensures k1 == k2
  {
    BitsOfBase32(StrkeyBits(k1), Base32(StrkeyBits(k1)));
    BitsOfBase32(StrkeyBits(k2), Base32(StrkeyBits(k2)));
    StrkeyFields(k1);
    StrkeyFields(k2);
    var p1, p2 := [VERSION_BYTE] + k1, [VERSION_BYTE] + k2;
    BytesInjective(p1, p2);
    assert k1 == p1[1..] && k2 == p2[1..];
  }

  // ---- damaged ids ---------------------------------------------------------------

  /** The difference of two registers fed with two messages steps with the difference of the messages. */
  lemma DifferenceStep(a: seq<bool>, b: seq<bool>, k: nat)
    requires k < |a| == |b|
    ensures Difference(a, b, k + 1) == Step(Difference(a, b, k), a[k] != b[k])
  {
    FeedOne(ZERO, a, k);
    FeedOne(ZERO, b, k);
    StepXor(Feed(ZERO, a, k), Feed(ZERO, b, k), a[k], b[k]);
  }

  function Difference(a: seq<bool>, b: seq<bool>, k: nat): Word
    requires k <= |a| == |b|
  {
    Xor(Feed(ZERO, a, k), Feed(ZERO, b, k))
  }

  lemma WindowStep(a: seq<bool>, b: seq<bool>, d: seq<bool>, lo: nat, k: nat)
    requires |a| == |b| && k < |d| && lo + k < |a|
    requires d[k] == (a[lo + k] != b[lo + k]) && Difference(a, b, lo + k) == Feed(ZERO, d, k)
    ensures Difference(a, b, lo + k + 1) == Feed(ZERO, d, k + 1)
  {
    DifferenceStep(a, b, lo + k);
    assert Difference(a, b, lo + k + 1) == Step(Feed(ZERO, d, k), d[k]);
    FeedOne(ZERO, d, k);
  }

  /** Inside the window, the difference is the CRC of the changed bits alone. */
  lemma {:induction false} DifferenceInWindow(a: seq<bool>, b: seq<bool>, d: seq<bool>, lo: nat, k: nat)
    requires |a| == |b| && k <= |d| && lo + k <= |a|
    requires forall j :: 0 <= j < lo ==> a[j] == b[j]
    requires forall j :: 0 <= j < k ==> d[j] == (a[lo + j] != b[lo + j])
    ensures Difference(a, b, lo + k) == Feed(ZERO, d, k)
  {
    if k == 0 {
      FeedPrefix(ZERO, a, b, lo);
      XorSelf(Feed(ZERO, a, lo));
    } else {
      DifferenceInWindow(a, b, d, lo, k - 1);
      WindowStep(a, b, d, lo, k - 1);
    }
  }

  lemma XorSelf(w: Word)
    ensures Xor(w, w) == ZERO
  {
    assert forall k :: 0 <= k < 16 ==> Xor(w, w)[k] == ZERO[k];
  }

  lemma XorIsZero(v: Word, w: Word)
    ensures Xor(v, w) == ZERO <==> v == w
  {
    if Xor(v, w) == ZERO {
      assert forall k :: 0 <= k < 16 ==> Xor(v, w)[k] == ZERO[k];
    } else if v == w {
      XorSelf(v);
    }
  }

  /** Where the messages agree, the difference only shifts. */
  lemma DifferenceShifts(a: seq<bool>, b: seq<bool>, k: nat)
    requires k < |a| == |b| && a[k] == b[k]
    ensures Difference(a, b, k + 1) == ZERO ==> Difference(a, b, k) == ZERO
  {
    var x := Difference(a, b, k);
    DifferenceStep(a, b, k);
    assert Step(x, false) == Shift(x);
    ShiftZero(x);
  }

  /** After the window the difference never vanishes. */
  lemma {:induction false} DifferenceAfterWindow(a: seq<bool>, b: seq<bool>, hi: nat, k: nat)
    requires |a| == |b| && hi <= k <= |a|
    requires forall j :: hi <= j < k ==> a[j] == b[j]
    requires Difference(a, b, k) == ZERO
    ensures Difference(a, b, hi) == ZERO
  {
    if k > hi {
      DifferenceShifts(a, b, k - 1);
      DifferenceAfterWindow(a, b, hi, k - 1);
    }
  }

  function Checksum(b: seq<bool>): Word
    requires |b| == 280
  {
    b[272..] + b[264..272]
  }

  /** For two accepted ids the payload difference is the checksum difference. */
  lemma AcceptedDifference(a: seq<bool>, b: seq<bool>)
    requires |a| == |b| == 280 && AcceptedBits(a) && AcceptedBits(b)
    ensures Difference(a, b, 264) == Xor(Checksum(a), Checksum(b))
  {
    FeedPrefix(ZERO, a[..264], a, 264);
    FeedPrefix(ZERO, b[..264], b, 264);
  }

  /** The two strings of bits agree outside [lo, lo + |d|) and differ by d inside. */
  ghost predicate DifferBy(a: seq<bool>, b: seq<bool>, lo: nat, d: seq<bool>)
    requires |a| == |b|
  {
    && lo + |d| <= |a|
    && (forall j :: 0 <= j < lo ==> a[j] == b[j])
    && (forall j :: lo + |d| <= j < |a| ==> a[j] == b[j])
    && (forall j :: 0 <= j < |d| ==> d[j] == (a[lo + j] != b[lo + j]))
  }

  ghost predicate NoChange(d: seq<bool>) { forall j :: 0 <= j < |d| ==> !d[j] }

  lemma SameChecksumWord(a: seq<bool>, b: seq<bool>)
    requires |a| == |b| == 280 && forall j :: 264 <= j < 280 ==> a[j] == b[j]
    ensures Xor(Checksum(a), Checksum(b)) == ZERO
  {
    assert a[264..272] == b[264..272] && a[272..] == b[272..];
    XorSelf(Checksum(a));
  }

  /** A burst inside the payload. */
  lemma PayloadBurst(a: seq<bool>, b: seq<bool>, lo: nat, d: seq<bool>)
    requires |a| == |b| == 280 && AcceptedBits(a) && AcceptedBits(b)
    requires DifferBy(a, b, lo, d) && lo + |d| <= 264 && |d| <= 16
    ensures NoChange(d)
  {
    AcceptedDifference(a, b);
    SameChecksumWord(a, b);
    DifferenceAfterWindow(a, b, lo + |d|, 264);
    DifferenceInWindow(a, b, d, lo, |d|);
    BurstDetected(d);
  }

  /** A change inside the checksum. */
  lemma ChecksumChange(a: seq<bool>, b: seq<bool>, lo: nat, d: seq<bool>)
    requires |a| == |b| == 280 && AcceptedBits(a) && AcceptedBits(b)
    requires DifferBy(a, b, lo, d) && 264 <= lo
    ensures NoChange(d)
  {
    AcceptedDifference(a, b);
    DifferenceInWindow(a, b, [], 264, 0);
    XorIsZero(Checksum(a), Checksum(b));
    SameChecksum(a[272..], a[264..272], b[272..], b[264..272]);
    forall j | 0 <= j < |d|
      ensures !d[j]
    {
      var k := lo + j;
      if k < 272 {
        assert a[k] == a[264..272][k - 264] && b[k] == b[264..272][k - 264];
      } else {
        assert a[k] == a[272..][k - 272] && b[k] == b[272..][k - 272];
      }
    }
  }

  /** The part of a straddling change that lies in the payload, against the checksum difference. */
  lemma StraddlingChange(a: seq<bool>, b: seq<bool>, lo: nat, d: seq<bool>)
    requires |a| == |b| == 280 && AcceptedBits(a) && AcceptedBits(b)
    requires DifferBy(a, b, lo, d) && lo <= 264 <= lo + |d| <= 272
    ensures Crc(d[..264 - lo]) == Xor(Checksum(a), Checksum(b))
    ensures forall k :: 0 <= k < 8 ==> !Xor(Checksum(a), Checksum(b))[k]
    ensures forall k :: 8 <= k < 16 ==>
      Xor(Checksum(a), Checksum(b))[k] == (k < 8 + lo + |d| - 264 && d[264 - lo + k - 8])
  {
    AcceptedDifference(a, b);
    DifferenceInWindow(a, b, d[..264 - lo], lo, 264 - lo);
    ChecksumBits(a);
    ChecksumBits(b);
  }

  lemma ChecksumBits(b: seq<bool>)
    requires |b| == 280
    ensures forall k :: 0 <= k < 8 ==> Checksum(b)[k] == b[272 + k]
    ensures forall k :: 8 <= k < 16 ==> Checksum(b)[k] == b[256 + k]
  {
  }

  /** Nine payload bits can not make a difference in the top bit of the checksum's low byte alone. */
  lemma NineBits(d: seq<bool>)
    requires |d| == 9
    requires forall k :: 0 <= k < 16 && k != 8 ==> !Crc(d)[k]
    ensures NoChange(d) && !Crc(d)[8]
  {
    CrcOfBurst(d);
    if Crc(d)[8] {
      assert Crc(d) == Only(8);
      PreImage(Burst(d));
      assert false;
    }
    assert Crc(d) == ZERO;
    BurstDetected(d);
  }

  function Only(k: nat): Word
    requires k < 16
  {
    seq(16, j => j == k)
  }

  lemma {:induction false} ShiftsOnly(n: nat)
    requires n <= 15
    ensures Shifts(Only(15), n) == Only(15 - n)
  {
    if n == 0 {
    } else {
      ShiftsOnly(n - 1);
      assert Shift(Only(16 - n)) == Only(15 - n);
    }
  }

  lemma {:induction false} ShiftsAdd(w: Word, m: nat, n: nat)
    ensures Shifts(w, m + n) == Shifts(Shifts(w, m), n)
  {
    if n == 0 {
    } else {
      ShiftsAdd(w, m, n - 1);
    }
  }

  lemma TwoShifts(w: Word)
    ensures Shifts(w, 2) == Shift(Shift(w))
  {
    assert Shifts(w, 1) == Shift(Shifts(w, 0));
  }

  /** The register that nine shifts bring to the single bit 8 is x^14 + x^10 + x^3. */
  lemma PreImage(v: Word)
    requires Shifts(v, 9) == Only(8)
    ensures v[12]
  {
    var w, w1 := Zeros(16)[1 := true][5 := true][12 := true], Zeros(16)[0 := true][4 := true][11 := true];
    assert Shift(w) == w1;
    assert Shift(w1) == Only(15);
    TwoShifts(w);
    ShiftsAdd(w, 2, 7);
    ShiftsOnly(7);
    ShiftsInjective(v, w, 9);
  }

  /** Four payload bits reappear unchanged at the top of the register. */
  lemma FourBits(d: seq<bool>)
    requires |d| == 4
    ensures forall k :: 0 <= k < 4 ==> Crc(d)[k] == d[k]
  {
    CrcOfBurst(d);
    var w := Burst(d);
    ShiftsAdd(w, 1, 3);
    ShiftsAdd(Shifts(w, 1), 1, 2);
    ShiftsAdd(Shifts(Shifts(w, 1), 1), 1, 1);
    RotatedTop(w, Shift(w), Shift(Shift(w)), Shift(Shift(Shift(w))));
  }

  lemma RotatedTop(w: Word, r1: Word, r2: Word, r3: Word)
    requires r1 == Shift(w) && r2 == Shift(r1) && r3 == Shift(r2)
    requires forall k :: 4 <= k < 8 ==> !w[k]
    ensures forall k :: 0 <= k < 4 ==> Shift(r3)[k] == w[k]
  {
    assert !POLY[0] && !POLY[1] && !POLY[2] && POLY[3] && !POLY[4] && !POLY[5] && !POLY[6];
    assert r1[0] == w[1] && r1[1] == w[2] && r1[2] == w[3] && r1[3] == w[0] && !r1[4] && !r1[5] && !r1[6];
    assert r2[0] == w[2] && r2[1] == w[3] && r2[2] == w[0] && r2[3] == w[1] && !r2[4] && !r2[5];
    assert r3[0] == w[3] && r3[1] == w[0] && r3[2] == w[1] && r3[3] == w[2] && !r3[4];
  }

  lemma {:induction false} SymbolWindow(s: string, k: nat)
    requires Base32Text(s) && k < |s|
    ensures SymbolBits(s)[5 * k..5 * k + 5] == OfNat(IndexOf(s[k]), 5)
  {
    var b := SymbolBits(s);
    if k == |s| - 1 {
      assert b == SymbolBits(s[..k]) + OfNat(IndexOf(s[k]), 5);
    } else {
      var rest := s[..|s| - 1];
      SymbolWindow(rest, k);
      assert rest[k] == s[k];
      assert SymbolBits(rest)[5 * k..5 * k + 5] == b[5 * k..5 * k + 5];
    }
  }

  /** Bits differ only where symbols do. */
  lemma SameSymbolSameBits(s: string, t: string, j: nat)
    requires Base32Text(s) && Base32Text(t) && |s| == |t| && j < 5 * |s|
    requires s[j / 5] == t[j / 5]
    ensures SymbolBits(s)[j] == SymbolBits(t)[j]
  {
    var k := j / 5;
    SymbolWindow(s, k);
    SymbolWindow(t, k);
    BitOfGroup(SymbolBits(s), k, j);
    BitOfGroup(SymbolBits(t), k, j);
  }

  lemma BitOfGroup(b: seq<bool>, k: nat, j: nat)
    requires 5 * k <= j < 5 * k + 5 <= |b|
    ensures b[j] == b[5 * k..5 * k + 5][j - 5 * k]
  {
  }

  /** The changed bits, when only symbols i and i + 1 may have changed. */
  function Change(a: seq<bool>, b: seq<bool>, lo: nat): (d: seq<bool>)
    requires |a| == |b| && lo + 10 <= |a|
    ensures |d| == 10
  {
    seq(10, j requires 0 <= j < 10 => a[lo + j] != b[lo + j])
  }

  lemma ChangeIsLocal(s: string, t: string, i: nat)
    requires Base32Text(s) && Base32Text(t) && |s| == |t| && i + 1 < |s|
    requires forall k :: 0 <= k < |s| && k != i && k != i + 1 ==> s[k] == t[k]
    ensures DifferBy(SymbolBits(s), SymbolBits(t), 5 * i, Change(SymbolBits(s), SymbolBits(t), 5 * i))
  {
    var a, b := SymbolBits(s), SymbolBits(t);
    forall j | 0 <= j < |a| && !(5 * i <= j < 5 * i + 10)
      ensures a[j] == b[j]
    {
      assert j / 5 != i && j / 5 != i + 1;
      SameSymbolSameBits(s, t, j);
    }
    LocalChange(a, b, 5 * i);
  }

  lemma LocalChange(a: seq<bool>, b: seq<bool>, lo: nat)
    requires |a| == |b| && lo + 10 <= |a|
    requires forall j :: 0 <= j < |a| && !(lo <= j < lo + 10) ==> a[j] == b[j]
    ensures DifferBy(a, b, lo, Change(a, b, lo))
  {
  }

  lemma StraddleAt51(a: seq<bool>, b: seq<bool>, d: seq<bool>)
    requires |a| == |b| == 280 && AcceptedBits(a) && AcceptedBits(b)
    requires |d| == 10 && DifferBy(a, b, 255, d)
    ensures NoChange(d)
  {
    StraddlingChange(a, b, 255, d);
    NineBits(d[..9]);
    assert forall k :: 0 <= k < 9 ==> d[k] == d[..9][k];
  }

  lemma StraddleAt52(a: seq<bool>, b: seq<bool>, d: seq<bool>)
    requires |a| == |b| == 280 && AcceptedBits(a) && AcceptedBits(b)
    requires |d| == 10 && DifferBy(a, b, 260, d)
    ensures NoChange(d)
  {
    StraddlingChange(a, b, 260, d);
    FourBits(d[..4]);
    assert forall k :: 0 <= k < 4 ==> d[k] == d[..4][k];
    StraddledZero(d[..4]);
    forall k | 4 <= k < 10
      ensures !d[k]
    {
      assert !Crc(d[..4])[k + 4];
    }
  }

  lemma StraddledZero(d: seq<bool>)
    requires |d| == 4 && NoChange(d)
    ensures Crc(d) == ZERO
  {
    CrcOfBurst(d);
    assert Burst(d) == ZERO;
    ShiftsZero(4);
  }

  /** Two accepted ids that agree everywhere but on two neighbouring characters are the same id. */
  lemma AdjacentDamageRejected(s: string, t: string, i: nat)
    requires Accepted(s) && |t| == 56 && i < 55
    requires forall k :: 0 <= k < 56 && k != i && k != i + 1 ==> s[k] == t[k]
    ensures Accepted(t) <==> s == t
  {
    if Accepted(t) {
      var a, b := SymbolBits(s), SymbolBits(t);
      var d := Change(a, b, 5 * i);
      ChangeIsLocal(s, t, i);
      if i <= 50 {
        PayloadBurst(a, b, 5 * i, d);
      } else if i == 51 {
        StraddleAt51(a, b, d);
      } else if i == 52 {
        StraddleAt52(a, b, d);
      } else {
        ChecksumChange(a, b, 5 * i, d);
      }
      SameBits(a, b, 5 * i, d);
      Base32OfBits(s, SymbolBits(s));
      Base32OfBits(t, SymbolBits(t));
    }
  }

  lemma SameBits(a: seq<bool>, b: seq<bool>, lo: nat, d: seq<bool>)
    requires |a| == |b| && DifferBy(a, b, lo, d) && NoChange(d)
    ensures a == b
  {
    forall j | 0 <= j < |a|
      ensures a[j] == b[j]
    {
      if lo <= j < lo + |d| {
        assert d[j - lo] == (a[lo + (j - lo)] != b[lo + (j - lo)]);
      }
    }
  }

  /** Replacing any one character of an accepted id gives a rejected one. */
  lemma SingleCharacterDamageRejected(s: string, i: nat, c: char)
    requires Accepted(s) && i < 56 && c != s[i]
    ensures !Accepted(s[i := c])
  {
    AdjacentDamageRejected(s, s[i := c], if i < 55 then i else i - 1);
  }

  /** Swapping two different neighbouring characters of an accepted id gives a rejected one. */
  lemma TranspositionRejected(s: string, i: nat)
    requires Accepted(s) && i < 55 && s[i] != s[i + 1]
    ensures !Accepted(s[i := s[i + 1]][i + 1 := s[i]])
  {
    AdjacentDamageRejected(s, s[i := s[i + 1]][i + 1 := s[i]], i);
  }
}
