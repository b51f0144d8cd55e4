/**
 * The canonical JSON text that audit hashes and signatures are computed from:
 * objects with their keys sorted, and nothing below a fixed depth.
 */
module CanonicalJson {
  import opened Prelude

  /**
   * A payload. A finite number is given by its text, which is different for
   * different numbers, a date by its ISO text. Circular stands where the printer
   * meets an array or object that it is already inside of.
   */
  datatype Json =
    | Null
    | Undefined
    | Bool(b: bool)
    | Num(text: string)
    | NotFinite
    | Str(s: string)
    | Date(iso: string)
    | Circular
    | Arr(items: seq<Json>)
    | Obj(members: seq<Member>)

  datatype Member = Member(key: string, value: Json)

  /** Whether a key sorts before, or level with, another. */
  type Order = (string, string) -> bool

  ghost predicate IsOrder(le: Order)
  {
    (forall a, b :: le(a, b) || le(b, a)) && (forall a, b, c :: le(a, b) && le(b, c) ==> le(a, c))
  }

  const MAX_DEPTH: nat := 10
  const TOO_DEEP: string := "[Too Deep]"
  const CIRCULAR: string := "[Circular]"

  predicate IsNumberChar(c: char) { '0' <= c <= '9' || c in "+-.e" }

  predicate IsNumberText(t: string) { t != [] && forall i :: 0 <= i < |t| ==> IsNumberChar(t[i]) }

  // ---- strings --------------------------------------------------------------------

  const HEX: string := "0123456789abcdef"

  function Escape(c: char): string
  {
    if c == '\"' then "\\\""
    else if c == '\\' then "\\\\"
    else if c == 8 as char then "\\b"
    else if c == 9 as char then "\\t"
    else if c == 10 as char then "\\n"
    else if c == 12 as char then "\\f"
    else if c == 13 as char then "\\r"
    else if c < ' ' then "\\u00" + [HEX[c as int / 16], HEX[c as int % 16]]
    else [c]
  }

  function Concat(parts: seq<string>): string
  {
    if parts == [] then "" else parts[0] + Concat(parts[1..])
  }

  function Escaped(s: string): string
  {
    Concat(seq(|s|, i requires 0 <= i < |s| => Escape(s[i])))
  }

  lemma EscapedUnfold(s: string)
    requires s != []
    ensures Escaped(s) == Escape(s[0]) + Escaped(s[1..])
  {
    var parts := seq(|s|, i requires 0 <= i < |s| => Escape(s[i]));
    var tail := s[1..];
    assert parts[1..] == seq(|tail|, i requires 0 <= i < |tail| => Escape(tail[i]));
  }

  function Quote(s: string): string { "\"" + Escaped(s) + "\"" }

  // ---- the printer ----------------------------------------------------------------

  function Join(parts: seq<string>): string
  {
    if parts == [] then ""
    else if |parts| == 1 then parts[0]
    else parts[0] + "," + Join(parts[1..])
  }

  /** Puts a member behind all that do not sort after it. */
  function Insert(sorted: seq<Member>, m: Member, le: Order): (r: seq<Member>)
    ensures |r| == |sorted| + 1
    ensures forall x :: x in r <==> x in sorted || x == m
  {
    if sorted == [] then [m]
    else
      var last := sorted[|sorted| - 1];
      var before := sorted[..|sorted| - 1];
      assert sorted == before + [last];
      if le(last.key, m.key) then sorted + [m] else Insert(before, m, le) + [last]
  }

  /** The stable sort by key. */
  function Sort(members: seq<Member>, le: Order): (r: seq<Member>)
    ensures |r| == |members|
    ensures forall x :: x in r <==> x in members
  {
    if members == [] then []
    else
      assert members == members[..|members| - 1] + [members[|members| - 1]];
      Insert(Sort(members[..|members| - 1], le), members[|members| - 1], le)
  }

  function StableStringify(v: Json, depth: nat, le: Order): string
    decreases v
  {
    if depth > MAX_DEPTH then Quote(TOO_DEEP)
    else
      match v
      case Null => "null"
      case Undefined => "null"
      case Bool(b) => if b then "true" else "false"
      case Num(text) => text
      case NotFinite => "null"
      case Str(s) => Quote(s)
      case Date(iso) => Quote(iso)
      case Circular => Quote(CIRCULAR)
      case Arr(items) =>
        "[" + Join(seq(|items|, i requires 0 <= i < |items| => StableStringify(items[i], depth + 1, le))) + "]"
      case Obj(members) =>
        var sorted := Sort(members, le);
        "{" + Join(seq(|members|, i requires 0 <= i < |members| =>
          assert sorted[i] in members;
          Quote(sorted[i].key) + ":" + StableStringify(sorted[i].value, depth + 1, le))) + "}"
  }

  // ---- the plain text of a value ------------------------------------------------------

  /** What JSON has for a value that is not an array or object. */
  function Scalar(v: Json): Json
  {
    match v
    case Undefined => Null
    case NotFinite => Null
    case Date(iso) => Str(iso)
    case Circular => Str(CIRCULAR)
    case _ => v
  }

  /** The value that is printed: keys sorted, scalars as JSON has them, nodes that lie too deep replaced. */
  function Canon(v: Json, depth: nat, le: Order): Json
    decreases v
  {
    if depth > MAX_DEPTH then Str(TOO_DEEP)
    else
      match v
      case Arr(items) => Arr(seq(|items|, i requires 0 <= i < |items| => Canon(items[i], depth + 1, le)))
      case Obj(members) =>
        var sorted := Sort(members, le);
        Obj(seq(|members|, i requires 0 <= i < |members| =>
          assert sorted[i] in members;
          Member(sorted[i].key, Canon(sorted[i].value, depth + 1, le))))
      case _ => Scalar(v)
  }

  function ItemTexts(items: seq<Json>): seq<string>
  {
    seq(|items|, i requires 0 <= i < |items| => Text(items[i]))
  }

  function MemberTexts(members: seq<Member>): seq<string>
  {
    seq(|members|, i requires 0 <= i < |members| => Quote(members[i].key) + ":" + Text(members[i].value))
  }

  /** JSON without white space, in the order in which things are stored. */
  function Text(v: Json): string
  {
    match Scalar(v)
    case Null => "null"
    case Bool(b) => if b then "true" else "false"
    case Num(text) => text
    case Str(s) => Quote(s)
    case Arr(items) => "[" + Join(ItemTexts(items)) + "]"
    case Obj(members) => "{" + Join(MemberTexts(members)) + "}"
  }

  /** The printer writes the plain text of the canonical value. */
  lemma {:induction false} PrintsCanon(v: Json, depth: nat, le: Order)
    ensures StableStringify(v, depth, le) == Text(Canon(v, depth, le))
    decreases v, 1
  {
    if depth <= MAX_DEPTH && v.Arr? {
      PrintsCanonItems(v, depth, le);
    } else if depth <= MAX_DEPTH && v.Obj? {
      PrintsCanonMembers(v, depth, le);
    }
  }

  lemma {:induction false} PrintsCanonItems(v: Json, depth: nat, le: Order)
    requires v.Arr? && depth <= MAX_DEPTH
    ensures StableStringify(v, depth, le) == Text(Canon(v, depth, le))
    decreases v, 0
  {
    var texts := seq(|v.items|, i requires 0 <= i < |v.items| => StableStringify(v.items[i], depth + 1, le));
    var canon := Canon(v, depth, le).items;
    forall i | 0 <= i < |v.items| ensures texts[i] == ItemTexts(canon)[i] {
      PrintsCanon(v.items[i], depth + 1, le);
    }
    assert texts == ItemTexts(canon);
  }

  lemma {:induction false} PrintsCanonMembers(v: Json, depth: nat, le: Order)
    requires v.Obj? && depth <= MAX_DEPTH
    ensures StableStringify(v, depth, le) == Text(Canon(v, depth, le))
    decreases v, 0
  {
    var sorted := Sort(v.members, le);
    var texts := seq(|v.members|, i requires 0 <= i < |v.members| =>
      assert sorted[i] in v.members;
      Quote(sorted[i].key) + ":" + StableStringify(sorted[i].value, depth + 1, le));
    var canon := Canon(v, depth, le).members;
    forall i | 0 <= i < |v.members| ensures texts[i] == MemberTexts(canon)[i] {
      assert sorted[i] in v.members;
      PrintsCanon(sorted[i].value, depth + 1, le);
    }
    assert texts == MemberTexts(canon);
  }

  // ---- the inverse ----------------------------------------------------------------------

  function HexDigit(c: char): Option<nat>
  {
    if '0' <= c <= '9' then Some(c as nat - '0' as nat)
    else if 'a' <= c <= 'f' then Some(c as nat - 'a' as nat + 10)
    else None
  }

  /** The character after a backslash. */
  function Unescape(c: char): Option<char>
  {
    match c
    case '"' => Some('"')
    case '\\' => Some('\\')
    case 'b' => Some(8 as char)
    case 't' => Some(9 as char)
    case 'n' => Some(10 as char)
    case 'f' => Some(12 as char)
    case 'r' => Some(13 as char)
    case _ => None
  }

  /** The first character of a quoted string's text, and how much text it takes. */
  function ParseChar(t: string): (r: Option<(char, nat)>)
    ensures r.Some? ==> 0 < r.value.1 <= |t|
  {
    if t == [] || t[0] == '"' then None
    else if t[0] != '\\' then Some((t[0], 1))
    else if |t| >= 2 && Unescape(t[1]).Some? then Some((Unescape(t[1]).value, 2))
    else if |t| >= 6 && t[1..4] == "u00" && HexDigit(t[4]).Some? && HexDigit(t[5]).Some? then
      Some(((16 * HexDigit(t[4]).value + HexDigit(t[5]).value) as char, 6))
    else None
  }

  /** A string from behind its opening quote. */
  function ParseString(t: string): (r: Option<(string, string)>)
    ensures r.Some? ==> |r.value.1| < |t|
    decreases |t|
  {
    if t != [] && t[0] == '"' then Some(("", t[1..]))
    else
      var c := ParseChar(t);
      if c.None? then None
      else
        var rest := ParseString(t[c.value.1..]);
        if rest.None? then None else Some(([c.value.0] + rest.value.0, rest.value.1))
  }

  function NumberLength(t: string): (n: nat)
    ensures n <= |t|
  {
    if t != [] && IsNumberChar(t[0]) then 1 + NumberLength(t[1..]) else 0
  }

  predicate StartsWith(t: string, prefix: string) { |prefix| <= |t| && t[..|prefix|] == prefix }

  function ParseValue(t: string): (r: Option<(Json, string)>)
    ensures r.Some? ==> |r.value.1| < |t|
    decreases |t|, 0
  {
    if StartsWith(t, "null") then Some((Null, t[4..]))
    else if StartsWith(t, "true") then Some((Bool(true), t[4..]))
    else if StartsWith(t, "false") then Some((Bool(false), t[5..]))
    else if t == [] then None
    else if t[0] == '"' then
      var s := ParseString(t[1..]);
      if s.None? then None else Some((Str(s.value.0), s.value.1))
    else if t[0] == '[' then
      var items := if |t| > 1 && t[1] == ']' then Some(([], t[2..])) else ParseItems(t[1..]);
      if items.None? then None else Some((Arr(items.value.0), items.value.1))
    else if t[0] == '{' then
      var members := if |t| > 1 && t[1] == '}' then Some(([], t[2..])) else ParseMembers(t[1..]);
      if members.None? then None else Some((Obj(members.value.0), members.value.1))
    else if IsNumberChar(t[0]) then Some((Num(t[..NumberLength(t)]), t[NumberLength(t)..]))
    else None
  }

  /** One or more items up to the closing bracket. */
  function ParseItems(t: string): (r: Option<(seq<Json>, string)>)
    ensures r.Some? ==> |r.value.1| < |t|
    decreases |t|, 1
  {
    var first := ParseValue(t);
    if first.None? || first.value.1 == [] then None
    else
      var (v, rest) := first.value;
      if rest[0] == ']' then Some(([v], rest[1..]))
      else if rest[0] == ',' then
        var more := ParseItems(rest[1..]);
        if more.None? then None else Some(([v] + more.value.0, more.value.1))
      else None
  }

  function ParseMember(t: string): (r: Option<(Member, string)>)
    ensures r.Some? ==> |r.value.1| < |t|
    decreases |t|, 1
  {
    if t == [] || t[0] != '"' then None
    else
      var key := ParseString(t[1..]);
      if key.None? || key.value.1 == [] || key.value.1[0] != ':' then None
      else
        var value := ParseValue(key.value.1[1..]);
        if value.None? then None else Some((Member(key.value.0, value.value.0), value.value.1))
  }

  /** One or more members up to the closing brace. */
  function ParseMembers(t: string): (r: Option<(seq<Member>, string)>)
    ensures r.Some? ==> |r.value.1| < |t|
    decreases |t|, 2
  {
    var first := ParseMember(t);
    if first.None? || first.value.1 == [] then None
    else
      var (m, rest) := first.value;
      if rest[0] == '}' then Some(([m], rest[1..]))
      else if rest[0] == ',' then
        var more := ParseMembers(rest[1..]);
        if more.None? then None else Some(([m] + more.value.0, more.value.1))
      else None
  }

  /** Only what JSON has, with every number spelled as a number. */
  predicate IsJson(v: Json)
  {
    match v
    case Num(text) => IsNumberText(text)
    case Arr(items) => forall i :: 0 <= i < |items| ==> IsJson(items[i])
    case Obj(members) => forall i :: 0 <= i < |members| ==> IsJson(members[i].value)
    case _ => v == Scalar(v)
  }

  lemma ParseEscape(c: char, rest: string)
    ensures ParseChar(Escape(c) + rest) == Some((c, |Escape(c)|))
  {
    if Escape(c)[0] == '\\' && |Escape(c)| == 6 {
      var t := Escape(c) + rest;
      assert t[1..4] == "u00";
      HexInverse(c as int / 16);
      HexInverse(c as int % 16);
    }
  }

  lemma HexInverse(n: nat)
    requires n < 16
    ensures HexDigit(HEX[n]) == Some(n)
  {
  }

  lemma {:induction false} ParseEscaped(s: string, rest: string)
    ensures ParseString(Escaped(s) + "\"" + rest) == Some((s, rest))
  {
    var t := Escaped(s) + "\"" + rest;
    if s == [] {
      assert t[1..] == rest;
    } else {
      var tail := Escaped(s[1..]) + "\"" + rest;
      EscapedUnfold(s);
      assert t == Escape(s[0]) + tail;
      ParseEscape(s[0], tail);
      assert t[|Escape(s[0])|..] == tail;
      ParseEscaped(s[1..], rest);
      assert [s[0]] + s[1..] == s;
    }
  }

  lemma {:induction false} NumberLengthOf(text: string, rest: string)
    requires forall i :: 0 <= i < |text| ==> IsNumberChar(text[i])
    requires rest == [] || !IsNumberChar(rest[0])
    ensures NumberLength(text + rest) == |text|
  {
    if text == [] {
      assert text + rest == rest;
    } else {
      assert (text + rest)[1..] == text[1..] + rest;
      NumberLengthOf(text[1..], rest);
    }
  }

  /** No other value starts like a literal. */
  lemma {:induction false} ParseByFirst(t: string)
    requires t != [] && t[0] !in "ntf"
    ensures t[0] == '"' && ParseString(t[1..]).Some? ==>
      ParseValue(t) == Some((Str(ParseString(t[1..]).value.0), ParseString(t[1..]).value.1))
    ensures t[0] == '[' && |t| > 1 && t[1] != ']' && ParseItems(t[1..]).Some? ==>
      ParseValue(t) == Some((Arr(ParseItems(t[1..]).value.0), ParseItems(t[1..]).value.1))
    ensures t[0] == '{' && |t| > 1 && t[1] != '}' && ParseMembers(t[1..]).Some? ==>
      ParseValue(t) == Some((Obj(ParseMembers(t[1..]).value.0), ParseMembers(t[1..]).value.1))
    ensures |t| > 1 && t[..2] == "[]" ==> ParseValue(t) == Some((Arr([]), t[2..]))
    ensures |t| > 1 && t[..2] == "{}" ==> ParseValue(t) == Some((Obj([]), t[2..]))
    ensures IsNumberChar(t[0]) ==> ParseValue(t) == Some((Num(t[..NumberLength(t)]), t[NumberLength(t)..]))
  {
    NotLiteral(t);
  }

  lemma NotLiteral(t: string)
    requires t != [] && t[0] !in "ntf"
    ensures !StartsWith(t, "null") && !StartsWith(t, "true") && !StartsWith(t, "false")
  {
    assert |t| >= 4 ==> t[..4][0] == t[0];
    assert |t| >= 5 ==> t[..5][0] == t[0];
  }

  /** The parser recovers a value from its text, and leaves what follows. */
  lemma {:induction false} ParseText(v: Json, rest: string)
    requires IsJson(v) && (rest == [] || !IsNumberChar(rest[0]))
    ensures ParseValue(Text(v) + rest) == Some((v, rest))
    decreases v, Width(v)
  {
    if v.Arr? && v.items != [] {
      ParseArr(v, rest);
    } else if v.Obj? && v.members != [] {
      ParseObj(v, rest);
    } else {
      ParseAtom(v, rest);
    }
  }

  lemma ParseLiteral(t: string, rest: string)
    ensures t == "null" + rest ==> ParseValue(t) == Some((Null, rest))
    ensures t == "true" + rest ==> ParseValue(t) == Some((Bool(true), rest))
    ensures t == "false" + rest ==> ParseValue(t) == Some((Bool(false), rest))
  {
    if t == "null" + rest {
      assert t[..4] == "null";
    } else if t == "true" + rest {
      assert t[..4] == "true" && t[..4][0] == 't';
    } else if t == "false" + rest {
      assert t[..5] == "false" && t[..4][0] == 'f';
    }
  }

  lemma ParseQuoted(s: string, rest: string)
    ensures ParseValue(Quote(s) + rest) == Some((Str(s), rest))
  {
    var t := Quote(s) + rest;
    assert t[1..] == Escaped(s) + "\"" + rest;
    ParseEscaped(s, rest);
    ParseByFirst(t);
  }

  lemma ParseAtom(v: Json, rest: string)
    requires IsJson(v) && (rest == [] || !IsNumberChar(rest[0]))
    requires (v.Arr? ==> v.items == []) && (v.Obj? ==> v.members == [])
    ensures ParseValue(Text(v) + rest) == Some((v, rest))
  {
    var t := Text(v) + rest;
    match v
    case Null => ParseLiteral(t, rest);
    case Bool(b) => ParseLiteral(t, rest);
    case Num(text) =>
      NumberLengthOf(text, rest);
      assert t[0] == text[0] && t[..|text|] == text && t[|text|..] == rest;
      ParseByFirst(t);
    case Str(s) => ParseQuoted(s, rest);
    case Arr(_) =>
      assert t == "[]" + rest;
      ParseByFirst(t);
    case Obj(_) =>
      assert t == "{}" + rest;
      ParseByFirst(t);
  }

  lemma {:induction false} ParseArr(v: Json, rest: string)
    requires IsJson(v) && v.Arr? && v.items != []
    ensures ParseValue(Text(v) + rest) == Some((v, rest))
    decreases v, |v.items| + 1
  {
    var t := Text(v) + rest;
    ItemsStart(v.items);
    assert ItemTexts(v.items)[0..] == ItemTexts(v.items) && v.items[0..] == v.items;
    assert t[1..] == Join(ItemTexts(v.items)) + "]" + rest;
    ParseItemTexts(v, 0, rest);
    ParseByFirst(t);
  }

  lemma {:induction false} ParseObj(v: Json, rest: string)
    requires IsJson(v) && v.Obj? && v.members != []
    ensures ParseValue(Text(v) + rest) == Some((v, rest))
    decreases v, 2
  {
    ParseMemberTexts(v, rest);
    MembersStart(v.members);
    BraceUnfold(Join(MemberTexts(v.members)), v.members, rest);
  }

  lemma BraceUnfold(text: string, members: seq<Member>, rest: string)
    requires text != [] && text[0] == '"' && ParseMembers(text + "}" + rest) == Some((members, rest))
    ensures ParseValue("{" + text + "}" + rest) == Some((Obj(members), rest))
  {
    var t := "{" + text + "}" + rest;
    assert t[1..] == text + "}" + rest;
    ParseByFirst(t);
  }

  lemma {:induction false} ParseMemberTexts(v: Json, rest: string)
    requires IsJson(v) && v.Obj? && v.members != []
    ensures ParseMembers(Join(MemberTexts(v.members)) + "}" + rest) == Some((v.members, rest))
    decreases v, 1
  {
    var texts := MemberTexts(v.members);
    forall j, r: string | 0 <= j < |texts| ensures IsTextOf(texts[j], v.members[j], r) {
      if r != [] && !IsNumberChar(r[0]) {
        ParseMemberText(v, j, r);
      }
    }
    ParseMemberList(texts, v.members, 0, rest);
    assert texts[0..] == texts && v.members[0..] == v.members;
  }

  function Width(v: Json): nat
  {
    match v
    case Arr(items) => |items| + 2
    case Obj(members) => 3
    case _ => 0
  }

  lemma MembersStart(members: seq<Member>)
    requires members != []
    ensures Join(MemberTexts(members)) != [] && Join(MemberTexts(members))[0] == '"'
  {
    assert MemberTexts(members)[0][0] == '"';
  }

  /** A text does not start with a closing bracket. */
  lemma TextStart(v: Json)
    requires IsJson(v)
    ensures Text(v) != [] && Text(v)[0] != ']'
  {
  }

  lemma ItemsStart(items: seq<Json>)
    requires IsJson(Arr(items)) && items != []
    ensures Join(ItemTexts(items)) != [] && Join(ItemTexts(items))[0] != ']'
  {
    TextStart(items[0]);
    assert ItemTexts(items)[0] == Text(items[0]);
  }

  lemma JoinFrom(texts: seq<string>, i: nat)
    requires i < |texts|
    ensures Join(texts[i..]) == if i + 1 == |texts| then texts[i] else texts[i] + "," + Join(texts[i + 1..])
  {
    assert texts[i..][1..] == texts[i + 1..];
  }

  lemma Regroup(a: string, b: string, close: string, rest: string)
    ensures a + "," + b + close + rest == a + ("," + (b + close + rest))
  {
  }

  lemma LastItem(text: string, v: Json, rest: string)
    requires ParseValue(text + ("]" + rest)) == Some((v, "]" + rest))
    ensures ParseItems(text + "]" + rest) == Some(([v], rest))
  {
    assert ("]" + rest)[1..] == rest && text + "]" + rest == text + ("]" + rest);
  }

  lemma ItemsUnfold(t: string, v: Json, tail: string, more: seq<Json>, rest: string)
    requires ParseValue(t) == Some((v, "," + tail)) && ParseItems(tail) == Some((more, rest))
    ensures ParseItems(t) == Some(([v] + more, rest))
  {
    assert ("," + tail)[1..] == tail;
  }

  /** An item that others follow. */
  lemma FirstItem(text: string, v: Json, joined: string, more: seq<Json>, rest: string)
    requires ParseValue(text + ("," + (joined + "]" + rest))) == Some((v, "," + (joined + "]" + rest)))
    requires ParseItems(joined + "]" + rest) == Some((more, rest))
    ensures ParseItems(text + "," + joined + "]" + rest) == Some(([v] + more, rest))
  {
    var tail := joined + "]" + rest;
    ItemsUnfold(text + ("," + tail), v, tail, more, rest);
    Regroup(text, joined, "]", rest);
  }

  lemma {:induction false} ParseItemTexts(v: Json, i: nat, rest: string)
    requires v.Arr? && IsJson(v) && i < |v.items|
    ensures ParseItems(Join(ItemTexts(v.items)[i..]) + "]" + rest) == Some((v.items[i..], rest))
    decreases v, |v.items| - i
  {
    var item, texts := v.items[i], ItemTexts(v.items);
    JoinFrom(texts, i);
    if i + 1 == |v.items| {
      ParseText(item, "]" + rest);
      LastItem(texts[i], item, rest);
      assert v.items[i..] == [item];
    } else {
      var joined := Join(texts[i + 1..]);
      ParseText(item, "," + (joined + "]" + rest));
      ParseItemTexts(v, i + 1, rest);
      FirstItem(texts[i], item, joined, v.items[i + 1..], rest);
      assert v.items[i..] == [item] + v.items[i + 1..];
    }
  }

  lemma ParseKey(key: string, rest: string)
    ensures ParseValue(rest).Some? ==>
      ParseMember(Quote(key) + ":" + rest) == Some((Member(key, ParseValue(rest).value.0), ParseValue(rest).value.1))
  {
    var t := Quote(key) + ":" + rest;
    assert t[1..] == Escaped(key) + "\"" + (":" + rest);
    ParseEscaped(key, ":" + rest);
    assert (":" + rest)[1..] == rest;
  }

  lemma {:induction false} ParseMemberText(v: Json, i: nat, rest: string)
    requires v.Obj? && IsJson(v) && i < |v.members| && rest != [] && !IsNumberChar(rest[0])
    ensures ParseMember(MemberTexts(v.members)[i] + rest) == Some((v.members[i], rest))
    decreases v, 0
  {
    var m := v.members[i];
    ParseText(m.value, rest);
    ParseKey(m.key, Text(m.value) + rest);
    assert MemberTexts(v.members)[i] + rest == Quote(m.key) + ":" + (Text(m.value) + rest);
  }

  lemma LastMember(text: string, v: Member, rest: string)
    requires ParseMember(text + ("}" + rest)) == Some((v, "}" + rest))
    ensures ParseMembers(text + "}" + rest) == Some(([v], rest))
  {
    assert ("}" + rest)[1..] == rest && text + "}" + rest == text + ("}" + rest);
  }

  lemma MembersUnfold(t: string, v: Member, tail: string, more: seq<Member>, rest: string)
    requires ParseMember(t) == Some((v, "," + tail)) && ParseMembers(tail) == Some((more, rest))
    ensures ParseMembers(t) == Some(([v] + more, rest))
  {
    assert ("," + tail)[1..] == tail;
  }

  /** A member that others follow. */
  lemma FirstMember(text: string, v: Member, joined: string, more: seq<Member>, rest: string)
    requires ParseMember(text + ("," + (joined + "}" + rest))) == Some((v, "," + (joined + "}" + rest)))
    requires ParseMembers(joined + "}" + rest) == Some((more, rest))
    ensures ParseMembers(text + "," + joined + "}" + rest) == Some(([v] + more, rest))
  {
    var tail := joined + "}" + rest;
    MembersUnfold(text + ("," + tail), v, tail, more, rest);
    Regroup(text, joined, "}", rest);
  }

  ghost predicate IsTextOf(text: string, m: Member, rest: string)
  {
    rest != [] && !IsNumberChar(rest[0]) ==> ParseMember(text + rest) == Some((m, rest))
  }

  /** Members that can be parsed one by one can be parsed as a list. */
  lemma {:induction false} ParseMemberList(texts: seq<string>, members: seq<Member>, i: nat, rest: string)
    requires |texts| == |members| && i < |members|
    requires forall j, r: string :: 0 <= j < |texts| ==> IsTextOf(texts[j], members[j], r)
    ensures ParseMembers(Join(texts[i..]) + "}" + rest) == Some((members[i..], rest))
    decreases |members| - i
  {
    assert IsTextOf(texts[i], members[i], "}" + rest);
    if i + 1 == |members| {
      ParseLastMember(texts, members, rest);
    } else {
      ParseMemberList(texts, members, i + 1, rest);
      assert IsTextOf(texts[i], members[i], "," + (Join(texts[i + 1..]) + "}" + rest));
      ParseOneMore(texts, members, i, rest);
    }
  }

  lemma ParseLastMember(texts: seq<string>, members: seq<Member>, rest: string)
    requires |texts| == |members| > 0
    requires var i := |members| - 1; IsTextOf(texts[i], members[i], "}" + rest)
    ensures var i := |members| - 1; ParseMembers(Join(texts[i..]) + "}" + rest) == Some((members[i..], rest))
  {
    var i := |members| - 1;
    JoinFrom(texts, i);
    LastMember(texts[i], members[i], rest);
    assert members[i..] == [members[i]];
  }

  lemma ParseOneMore(texts: seq<string>, members: seq<Member>, i: nat, rest: string)
    requires |texts| == |members| && i + 1 < |members|
    requires IsTextOf(texts[i], members[i], "," + (Join(texts[i + 1..]) + "}" + rest))
    requires ParseMembers(Join(texts[i + 1..]) + "}" + rest) == Some((members[i + 1..], rest))
    ensures ParseMembers(Join(texts[i..]) + "}" + rest) == Some((members[i..], rest))
  {
    JoinFrom(texts, i);
    FirstMember(texts[i], members[i], Join(texts[i + 1..]), members[i + 1..], rest);
    assert members[i..] == [members[i]] + members[i + 1..];
  }
}
