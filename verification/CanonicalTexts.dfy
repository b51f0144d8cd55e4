/** The canonical text to the letter: scalars, escapes, and what stands for nodes that lie too deep. */
module CanonicalTexts {
  import opened CanonicalJson
  import opened CanonicalLimits

  /** What is printed for a value that is no array or object, down to depth 10. */
  lemma ScalarTexts(v: Json, depth: nat, le: Order)
    requires depth <= 10 && !v.Arr? && !v.Obj?
    ensures StableStringify(v, depth, le) ==
      match v
      case Bool(b) => if b then "true" else "false"
      case Num(text) => text
      case Str(s) => "\"" + Escaped(s) + "\""
      case Date(iso) => "\"" + Escaped(iso) + "\""
      case Circular => "\"[Circular]\""
      case _ => "null"
  {
    PlainText("[Circular]");
  }

  /** Characters that JSON lets stand for themselves. */
  predicate Plain(c: char) { c >= ' ' && c != '\"' && c != '\\' }

  lemma {:induction false} PlainText(s: string)
    requires forall k :: 0 <= k < |s| ==> Plain(s[k])
    ensures Escaped(s) == s
  {
    if s == [] {
    } else {
      EscapedUnfold(s);
      PlainText(s[1..]);
    }
  }

  /**
   * The escapes of JSON.stringify: short ones for seven characters,
   * four hexadecimal digits for the other controls.
   */
  lemma EscapeMeans(c: char)
    ensures var short := map['\"' := '\"', '\\' := '\\', 8 as char := 'b', 9 as char := 't', 10 as char := 'n', 12 as char := 'f', 13 as char := 'r'];
      && (c in short ==> Escape(c) == ['\\', short[c]])
      && (c !in short && c < ' ' ==> Escape(c) == ['\\', 'u', '0', '0', if c as int >= 16 then '1' else '0', "0123456789abcdef"[c as int % 16]])
      && (c !in short && c >= ' ' ==> Escape(c) == [c])
  {
    if c < ' ' {
      assert c as int / 16 in {0, 1};
    }
  }

  function Times(c: char, n: nat): string { seq(n, _ => c) }

  function Bracketed(text: string, k: nat): string { Times('[', k) + text + Times(']', k) }

  ghost predicate Prints(v: Json, depth: nat, le: Order, text: string) { StableStringify(v, depth, le) == text }

  lemma {:induction false} NestedWithin(v: Json, n: nat, depth: nat, le: Order, text: string)
    requires depth + n <= 10 && Prints(v, depth + n, le, text)
    ensures Prints(Nested(v, n), depth, le, Bracketed(text, n))
    decreases n
  {
    if n == 0 {
      NoBrackets(text);
    } else {
      NestedWithin(v, n - 1, depth + 1, le, text);
      OneMorePair(Nested(v, n - 1), text, n, depth, le);
    }
  }

  lemma {:induction false} NestedBeyond(v: Json, n: nat, depth: nat, le: Order)
    requires depth <= 11 && depth + n > 10
    ensures Prints(Nested(v, n), depth, le, Bracketed(Mark(), 11 - depth))
    decreases n
  {
    if depth == 11 {
      MarkText(Nested(v, n), le);
    } else {
      NestedBeyond(v, n - 1, depth + 1, le);
      OneMorePair(Nested(v, n - 1), Mark(), 11 - depth, depth, le);
    }
  }

  /**
   * A value inside n arrays is printed inside as many brackets, as long as it lies
   * no deeper than 10; what lies deeper is replaced by a mark.
   */
  lemma {:induction false} NestedText(v: Json, n: nat, le: Order)
    ensures Prints(Nested(v, n), 0, le, if n <= 10 then Bracketed(StableStringify(v, n, le), n) else Bracketed("\"[Too Deep]\"", 11))
  {
    if n <= 10 {
      NestedWithin(v, n, 0, le, StableStringify(v, n, le));
    } else {
      NestedBeyond(v, n, 0, le);
    }
  }

  function Mark(): string { "\"[Too Deep]\"" }

  lemma MarkText(v: Json, le: Order)
    ensures Prints(v, 11, le, Bracketed(Mark(), 0))
  {
    PlainText("[Too Deep]");
    NoBrackets(Mark());
  }

  lemma NoBrackets(text: string)
    ensures Bracketed(text, 0) == text
  {
  }

  lemma {:induction false} OneMorePair(v: Json, text: string, k: nat, depth: nat, le: Order)
    requires depth <= 10 && k > 0 && Prints(v, depth + 1, le, Bracketed(text, k - 1))
    ensures Prints(Arr([v]), depth, le, Bracketed(text, k))
  {
    OneBracket(v, depth, le);
    assert "[" + Times('[', k - 1) == Times('[', k) && Times(']', k - 1) + "]" == Times(']', k);
  }

  lemma {:induction false} OneBracket(v: Json, depth: nat, le: Order)
    requires depth <= 10
    ensures StableStringify(Arr([v]), depth, le) == "[" + StableStringify(v, depth + 1, le) + "]"
  {
  }
}
