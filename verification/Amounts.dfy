/** Decimal amounts, and the whole number of stroops (10^-7) they denote. */
module Amounts {
  import opened Arithmetic
  import opened Prelude

  /** The largest amount Stellar can represent, in stroops. */
  const MAX_AMOUNT_STROOPS: nat := 9_223_372_036_854_775_807

  predicate Digit(c: char) { '0' <= c <= '9' }

  predicate Digits(s: string) { forall k :: 0 <= k < |s| ==> Digit(s[k]) }

  function DecVal(s: string): nat
    requires Digits(s)
  {
    if s == [] then 0 else 10 * DecVal(s[..|s| - 1]) + (s[|s| - 1] as int - '0' as int)
  }

  function Pow10(n: nat): (p: nat)
    ensures p > 0
  {
    if n == 0 then 1 else 10 * Pow10(n - 1)
  }

  // ---- the shape of an amount -----------------------------------------------------

  /** The position of the first dot, or the length. */
  function Dot(s: string): (i: nat)
    ensures i <= |s|
    ensures forall k :: 0 <= k < i ==> s[k] != '.'
    ensures i < |s| ==> s[i] == '.'
  {
    if s == [] || s[0] == '.' then 0 else 1 + Dot(s[1..])
  }

  function Whole(s: string): string { s[..Dot(s)] }

  function Fraction(s: string): string { if Dot(s) < |s| then s[Dot(s) + 1..] else "" }

  /** One to 19 digits, and perhaps a dot and one to `decimals` digits. */
  predicate Matches(s: string, decimals: nat)
  {
    && 1 <= |Whole(s)| <= 19 && Digits(Whole(s))
    && Digits(Fraction(s))
    && (Dot(s) < |s| ==> 1 <= |Fraction(s)| <= decimals)
  }

  function PadEnd(s: string, n: nat): (r: string)
    ensures |r| == if |s| < n then n else |s|
  {
    if |s| < n then s + seq(n - |s|, _ => '0') else s
  }

  /** The exact value of an amount text with at most `decimals` decimals, in units of 10^-decimals. */
  function Units(s: string, decimals: nat): nat
    requires Matches(s, decimals)
  {
    PadKeepsDigits(Fraction(s), decimals);
    DecVal(Whole(s)) * Pow10(decimals) + DecVal(PadEnd(Fraction(s), decimals))
  }

  lemma PadKeepsDigits(s: string, n: nat)
    requires Digits(s)
    ensures Digits(PadEnd(s, n))
  {
  }

  function ToStroops(s: string): nat
    requires Matches(s, 7)
  {
    PadKeepsDigits(Fraction(s), 7);
    DecVal(Whole(s)) * 10_000_000 + DecVal(PadEnd(Fraction(s), 7))
  }

  // ---- trimming -------------------------------------------------------------------

  /** The white space and line ends String.prototype.trim removes. */
  predicate Space(c: char)
  {
    || '\U{0009}' <= c <= '\U{000D}' || c in {'\U{0020}', '\U{00A0}', '\U{1680}', '\U{FEFF}'}
    || '\U{2000}' <= c <= '\U{200A}' || c in {'\U{2028}', '\U{2029}', '\U{202F}', '\U{205F}', '\U{3000}'}
  }

  function TrimStart(s: string): string
  {
    if s != [] && Space(s[0]) then TrimStart(s[1..]) else s
  }

  function TrimEnd(s: string): string
  {
    if s != [] && Space(s[|s| - 1]) then TrimEnd(s[..|s| - 1]) else s
  }

  function Trim(s: string): string { TrimEnd(TrimStart(s)) }

  // ---- normalizeAmount ------------------------------------------------------------

  predicate AllZero(s: string) { forall k :: 0 <= k < |s| ==> s[k] == '0' }

  /** The rewriting part: accept at once, or drop zero padding beyond seven decimals. */
  function DropPadding(text: string): Option<string>
  {
    if Matches(text, 7) then Some(text)
    else if !Matches(text, 20) || !AllZero(Fraction(text)[7..]) then None
    else Some(Whole(text) + "." + Fraction(text)[..7])
  }

  function NormalizeAmount(value: string, allowZero: bool): Option<string>
  {
    var text := DropPadding(Trim(value));
    if text.None? then None
    else
      DropPaddingMatches(Trim(value));
      var stroops := ToStroops(text.value);
      if stroops > MAX_AMOUNT_STROOPS || (!allowZero && stroops == 0) then None else text
  }

  lemma JoinAmount(w: string, f: string)
    requires Digits(w) && Digits(f)
    ensures Dot(w + "." + f) == |w| && Whole(w + "." + f) == w && Fraction(w + "." + f) == f
  {
    var s := w + "." + f;
    assert forall k :: 0 <= k < |w| ==> s[k] == w[k];
    assert s[|w|] == '.';
  }

  lemma DropPaddingMatches(text: string)
    requires DropPadding(text).Some?
    ensures Matches(DropPadding(text).value, 7)
  {
    if !Matches(text, 7) {
      JoinAmount(Whole(text), Fraction(text)[..7]);
    }
  }

  lemma {:induction false} DecValAppend(s: string, t: string)
    requires Digits(s) && Digits(t)
    ensures Digits(s + t)
    ensures DecVal(s + t) == DecVal(s) * Pow10(|t|) + DecVal(t)
  {
    if t == [] {
      assert s + t == s;
    } else {
      var t' := t[..|t| - 1];
      DecValAppend(s, t');
      assert (s + t)[..|s + t| - 1] == s + t';
      assert DecVal(s) * Pow10(|t|) == 10 * (DecVal(s) * Pow10(|t'|));
    }
  }

  lemma {:induction false} DecValBound(s: string)
    requires Digits(s)
    ensures DecVal(s) < Pow10(|s|)
    ensures DecVal(s) == 0 <==> AllZero(s)
  {
    if s == [] {
    } else {
      var s' := s[..|s| - 1];
      DecValBound(s');
      if DecVal(s) == 0 {
        assert forall k :: 0 <= k < |s'| ==> s[k] == s'[k];
      }
    }
  }

  lemma Pow10Values()
    ensures Pow10(7) == 10_000_000 && Pow10(13) == 10_000_000_000_000
    ensures Pow10(20) == Pow10(7) * Pow10(13)
  {
    assert Pow10(4) == 10_000;
    assert Pow10(8) == 100_000_000;
    assert Pow10(12) == 1_000_000_000_000;
    assert Pow10(16) == 10_000_000_000_000_000;
    assert Pow10(20) == 100_000_000_000_000_000_000;
  }

  /** Twenty decimals are seven that count and thirteen that must vanish. */
  lemma {:induction false} SplitDecimals(f: string)
    requires Digits(f) && |f| <= 20
    ensures Digits(PadEnd(f, 20))
    ensures DecVal(PadEnd(f, 20)) == DecVal(PadEnd(f, 20)[..7]) * Pow10(13) + DecVal(PadEnd(f, 20)[7..])
    ensures DecVal(PadEnd(f, 20)[7..]) < Pow10(13)
    ensures DecVal(PadEnd(f, 20)[7..]) == 0 <==> |f| <= 7 || AllZero(f[7..])
    ensures |f| <= 7 ==> PadEnd(f, 20)[..7] == PadEnd(f, 7)
    ensures |f| > 7 ==> PadEnd(f, 20)[..7] == f[..7]
  {
    PadKeepsDigits(f, 20);
    SplitAtSeven(PadEnd(f, 20));
    PaddedTail(f);
  }

  lemma {:induction false} SplitAtSeven(p: string)
    requires Digits(p) && |p| == 20
    ensures DecVal(p) == DecVal(p[..7]) * Pow10(13) + DecVal(p[7..])
    ensures DecVal(p[7..]) < Pow10(13) && (DecVal(p[7..]) == 0 <==> AllZero(p[7..]))
  {
    assert p == p[..7] + p[7..];
    DecValAppend(p[..7], p[7..]);
    DecValBound(p[7..]);
  }

  /** What lies behind the seventh decimal of a padded text, and before it. */
  lemma PaddedTail(f: string)
    requires Digits(f) && |f| <= 20
    ensures AllZero(PadEnd(f, 20)[7..]) <==> |f| <= 7 || AllZero(f[7..])
    ensures PadEnd(f, 20)[..7] == if |f| <= 7 then PadEnd(f, 7) else f[..7]
  {
    var p := PadEnd(f, 20);
    if |f| > 7 {
      assert forall k :: 0 <= k < |f| - 7 ==> p[7..][k] == f[7..][k];
      assert forall k :: |f| - 7 <= k < 13 ==> p[7..][k] == '0';
    }
  }

  /** The value of a text in units of 10^-20, split at the stroop. */
  lemma UnitsSplit(text: string)
    requires Matches(text, 20)
    ensures Units(text, 20) == (DecVal(Whole(text)) * Pow10(7) + DecVal(PadEnd(Fraction(text), 20)[..7])) * Pow10(13)
                               + DecVal(PadEnd(Fraction(text), 20)[7..])
  {
    SplitDecimals(Fraction(text));
    Pow10Values();
    Regroup(DecVal(Whole(text)), Pow10(7), Pow10(13), DecVal(PadEnd(Fraction(text), 20)[..7]));
  }

  lemma Regroup(w: nat, p: nat, q: nat, d: nat)
    ensures (w * p + d) * q == w * (p * q) + d * q
  {
  }

  /** The text kept has the exact value of the text given. */
  lemma DropPaddingIsExact(text: string)
    requires Matches(text, 20)
    ensures DropPadding(text).Some? <==> Units(text, 20) % Pow10(13) == 0
    ensures DropPadding(text).Some? ==> Matches(DropPadding(text).value, 7)
    ensures DropPadding(text).Some? ==> ToStroops(DropPadding(text).value) * Pow10(13) == Units(text, 20)
  {
    var f := Fraction(text);
    SplitDecimals(f);
    UnitsSplit(text);
    Pow10Values();
    var rest := DecVal(PadEnd(f, 20)[7..]);
    DivideOut(DecVal(Whole(text)) * Pow10(7) + DecVal(PadEnd(f, 20)[..7]), Pow10(13), rest);
    if DropPadding(text).Some? {
      DropPaddingMatches(text);
      if |f| > 7 {
        JoinAmount(Whole(text), f[..7]);
      }
    }
  }

  /** A text in the strict shape starts and ends with a digit, so trimming keeps it. */
  lemma StrictTextIsTrim(text: string)
    requires Matches(text, 7)
    ensures Trim(text) == text
  {
    assert text[0] == Whole(text)[0];
    var last := text[|text| - 1];
    if Dot(text) < |text| {
      assert last == Fraction(text)[|Fraction(text)| - 1];
    } else {
      assert last == Whole(text)[|text| - 1];
    }
  }

  /**
   * normalizeAmount accepts exactly the texts of one to 19 digits and at most
   * 20 decimals whose value is a whole number of stroops in range, and the
   * text it returns denotes that very number.
   */
  lemma NormalizeIsExact(value: string, allowZero: bool)
    ensures NormalizeAmount(value, allowZero).Some? <==>
      && Matches(Trim(value), 20)
      && Units(Trim(value), 20) % Pow10(13) == 0
      && (if allowZero then 0 else 1) <= Units(Trim(value), 20) / Pow10(13) <= 9_223_372_036_854_775_807
    ensures NormalizeAmount(value, allowZero).Some? ==>
      var text := NormalizeAmount(value, allowZero).value;
      Matches(text, 7) && ToStroops(text) * Pow10(13) == Units(Trim(value), 20)
  {
    var t := Trim(value);
    if Matches(t, 20) {
      DropPaddingIsExact(t);
      if DropPadding(t).Some? {
        DivideOut(ToStroops(DropPadding(t).value), Pow10(13), 0);
      }
    }
  }

  predicate Decimal(s: string) { forall c :: c in s ==> '0' <= c <= '9' }

  lemma DecimalIsDigits(s: string)
    ensures Decimal(s) <==> Digits(s)
  {
    if Decimal(s) {
      forall k | 0 <= k < |s| ensures Digit(s[k]) {
        assert s[k] in s;
      }
    }
  }

  /** The shape in full: one to 19 digits, alone or with a dot and at least one digit behind it. */
  lemma MatchesMeans(s: string, decimals: nat)
    ensures Matches(s, decimals) <==>
      || (1 <= |s| <= 19 && Decimal(s))
      || exists w, f :: s == w + "." + f && 1 <= |w| <= 19 && 1 <= |f| <= decimals && Decimal(w) && Decimal(f)
  {
    DecimalIsDigits(s);
    DecimalIsDigits(Whole(s));
    DecimalIsDigits(Fraction(s));
    if Matches(s, decimals) {
      assert s == if Dot(s) < |s| then Whole(s) + "." + Fraction(s) else Whole(s);
    }
    if Digits(s) {
      assert forall k :: 0 <= k < |s| ==> s[k] != '.';
    }
    forall w, f | s == w + "." + f && 1 <= |w| <= 19 && 1 <= |f| <= decimals && Decimal(w) && Decimal(f)
      ensures Matches(s, decimals)
    {
      DecimalIsDigits(w);
      DecimalIsDigits(f);
      JoinAmount(w, f);
    }
  }

  /** Trimming takes away white space at both ends, all of it, and nothing else. */
  lemma TrimMeans(s: string) returns (a: string, b: string)
    ensures s == a + Trim(s) + b && (forall c :: c in a + b ==> Space(c))
    ensures Trim(s) != "" ==> !Space(Trim(s)[0]) && !Space(Trim(s)[|Trim(s)| - 1])
  {
    a := TrimStartMeans(s);
    b := TrimEndMeans(TrimStart(s));
  }

  lemma {:induction false} TrimStartMeans(s: string) returns (a: string)
    ensures s == a + TrimStart(s) && (forall c :: c in a ==> Space(c))
    ensures TrimStart(s) != "" ==> !Space(TrimStart(s)[0])
  {
    a := "";
    if s != [] && Space(s[0]) {
      a := TrimStartMeans(s[1..]);
      a := [s[0]] + a;
    }
  }

  lemma {:induction false} TrimEndMeans(s: string) returns (b: string)
    ensures s == TrimEnd(s) + b && (forall c :: c in b ==> Space(c))
    ensures TrimEnd(s) != "" ==> !Space(TrimEnd(s)[|TrimEnd(s)| - 1]) && TrimEnd(s)[0] == s[0]
  {
    b := "";
    if s != [] && Space(s[|s| - 1]) {
      b := TrimEndMeans(s[..|s| - 1]);
      b := b + [s[|s| - 1]];
    }
  }

  /** The 25 characters that count as white space. */
  lemma SpaceMeans(c: char)
    ensures Space(c) <==>
      || 9 <= c as int <= 13 || 8192 <= c as int <= 8202
      || c as int in {32, 160, 5760, 8232, 8233, 8239, 8287, 12288, 65279}
  {
  }

  /** What normalizeAmount returns it returns again. */
  lemma NormalizeIsIdempotent(value: string, allowZero: bool)
    requires NormalizeAmount(value, allowZero).Some?
    ensures var text := NormalizeAmount(value, allowZero).value;
      NormalizeAmount(text, allowZero) == Some(text) && 0 <= ToStroopsOf(text) <= 9_223_372_036_854_775_807
      && (!allowZero ==> ToStroopsOf(text) >= 1)
  {
    DropPaddingMatches(Trim(value));
    StrictTextIsTrim(NormalizeAmount(value, allowZero).value);
  }

  /** The stroops of a text, -1 when it is not in the strict shape. */
  function ToStroopsOf(text: string): int
  {
    if Matches(text, 7) then ToStroops(text) else -1
  }
}
