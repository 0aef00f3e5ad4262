/**
 * The slice of JSON (RFC 8259) that task tags use: a document that is one array
 * (section 5) whose elements are string literals (section 7) or `null`.
 *
 * `ParseStringArray` is what the server's tag rule and the client's `parseTags`
 * read; `Stringify` is `JSON.stringify` applied to an array of strings, as the
 * client's task form writes tags. The two are proved to be inverse.
 */
module Json {
  import opened Wrappers

  /** An array element: a string, or the literal `null`. */
  datatype Item = Str(s: string) | Null

  /** The four insignificant white-space characters of RFC 8259 section 2. */
  predicate IsJsonWhiteSpace(c: char) {
    c == ' ' || c == '\t' || c == '\n' || c == '\r'
  }

  function SkipWhiteSpace(s: string): (r: string)
    ensures |r| <= |s|
    ensures r != [] ==> !IsJsonWhiteSpace(r[0])
  {
    if s != [] && IsJsonWhiteSpace(s[0]) then SkipWhiteSpace(s[1..]) else s
  }

  predicate IsHexDigit(c: char) {
    ('0' <= c <= '9') || ('a' <= c <= 'f') || ('A' <= c <= 'F')
  }

  function HexValue(c: char): (v: nat)
    requires IsHexDigit(c)
    ensures v < 16
  {
    if '0' <= c <= '9' then c as int - '0' as int
    else if 'a' <= c <= 'f' then c as int - 'a' as int + 10
    else c as int - 'A' as int + 10
  }

  /** The lower-case hexadecimal digit of `v`, as `JSON.stringify` writes it. */
  function HexDigit(v: nat): (c: char)
    requires v < 16
    ensures IsHexDigit(c) && HexValue(c) == v
  {
    if v < 10 then ('0' as int + v) as char else ('a' as int + v - 10) as char
  }

  /** The value of the four hexadecimal digits that follow `\u`, if `s` starts with four. */
  function Hex4(s: string): (r: Option<nat>)
    ensures r.Some? ==> r.value < 0x10000
  {
    if |s| >= 4 && IsHexDigit(s[0]) && IsHexDigit(s[1]) && IsHexDigit(s[2]) && IsHexDigit(s[3])
    then Some(((HexValue(s[0]) * 16 + HexValue(s[1])) * 16 + HexValue(s[2])) * 16 + HexValue(s[3]))
    else None
  }

  /** The character a two-character escape `\x` stands for (RFC 8259 section 7). */
  function ShortEscape(x: char): Option<char> {
    match x
    case '"' => Some('"')
    case '\\' => Some('\\')
    case '/' => Some('/')
    case 'b' => Some('\U{0008}')
    case 'f' => Some('\U{000C}')
    case 'n' => Some('\n')
    case 'r' => Some('\r')
    case 't' => Some('\t')
    case _ => None
  }

  function Prepend(c: char, r: Option<(string, string)>): Option<(string, string)> {
    match r
    case None => None
    case Some((t, rest)) => Some(([c] + t, rest))
  }

  /**
   * Reads the rest of a string literal whose opening quote is already consumed:
   * the decoded contents and what follows the closing quote. Unescaped control
   * characters, unknown escapes and unpaired surrogate escapes are errors.
   */
  function ParseStringBody(s: string): (r: Option<(string, string)>)
    ensures r.Some? ==> |r.value.1| < |s|
  {
    if s == [] then None
    else if s[0] == '"' then Some(("", s[1..]))
    else if s[0] == '\\' then
      if |s| < 2 then None
      else if ShortEscape(s[1]).Some? then Prepend(ShortEscape(s[1]).value, ParseStringBody(s[2..]))
      else if s[1] != 'u' then None
      else match Hex4(s[2..])
        case None => None
        case Some(hi) =>
          if hi < 0xD800 || hi > 0xDFFF then Prepend(hi as char, ParseStringBody(s[6..]))
          else if hi >= 0xDC00 || |s| < 8 || s[6] != '\\' || s[7] != 'u' then None
          else match Hex4(s[8..])
            case None => None
            case Some(lo) =>
              if lo < 0xDC00 || lo > 0xDFFF then None
              else Prepend((0x10000 + (hi - 0xD800) * 0x400 + (lo - 0xDC00)) as char, ParseStringBody(s[12..]))
    else if s[0] < ' ' then None
    else Prepend(s[0], ParseStringBody(s[1..]))
  }

  /** Reads one array element: a string literal or `null`. */
  function ParseItem(s: string): (r: Option<(Item, string)>)
    ensures r.Some? ==> |r.value.1| < |s|
  {
    if s != [] && s[0] == '"' then
      match ParseStringBody(s[1..])
      case None => None
      case Some((t, rest)) => Some((Str(t), rest))
    else if |s| >= 4 && s[..4] == "null" then Some((Null, s[4..]))
    else None
  }

  /** Reads `item (, item)* ]` from a position where an item must start. */
  function ParseItems(s: string): (r: Option<(seq<Item>, string)>)
    ensures r.Some? ==> |r.value.0| >= 1 && |r.value.1| < |s|
    decreases |s|
  {
    var p := ParseItem(s);
    if p.None? then None
    else
      var t := SkipWhiteSpace(p.value.1);
      if t == [] then None
      else if t[0] == ']' then Some(([p.value.0], t[1..]))
      else if t[0] != ',' then None
      else
        var u := SkipWhiteSpace(t[1..]);
        assert |u| < |s|;
        var q := ParseItems(u);
        if q.None? then None else Some(([p.value.0] + q.value.0, q.value.1))
  }

  /** The elements of `s` when the whole of `s` is one JSON array of strings and nulls. */
  function ParseStringArray(s: string): Option<seq<Item>> {
    var t := SkipWhiteSpace(s);
    if t == [] || t[0] != '[' then None
    else
      var u := SkipWhiteSpace(t[1..]);
      if u != [] && u[0] == ']' then
        (if SkipWhiteSpace(u[1..]) == [] then Some([]) else None)
      else
        match ParseItems(u)
        case None => None
        case Some((items, rest)) => if SkipWhiteSpace(rest) == [] then Some(items) else None
  }

  // ---------------------------------------------------------------------------
  // JSON.stringify of an array of strings (ECMA-262 QuoteJSONString)

  /** How `JSON.stringify` writes one character inside a string literal. */
  function EscapeChar(c: char): (r: string)
    ensures |r| >= 1 && r[0] != '"'
  {
    if c == '\U{0008}' then "\\b"
    else if c == '\t' then "\\t"
    else if c == '\n' then "\\n"
    else if c == '\U{000C}' then "\\f"
    else if c == '\r' then "\\r"
    else if c == '"' then "\\\""
    else if c == '\\' then "\\\\"
    else if c < ' ' then "\\u00" + [HexDigit(c as int / 16), HexDigit(c as int % 16)]
    else [c]
  }

  function Escape(t: string): string {
    if t == [] then "" else EscapeChar(t[0]) + Escape(t[1..])
  }

  function Quote(t: string): string {
    "\"" + Escape(t) + "\""
  }

  /** The elements of a non-empty array, separated by commas, without the brackets. */
  function StringifyItems(tags: seq<string>): string
    requires |tags| >= 1
  {
    if |tags| == 1 then Quote(tags[0]) else Quote(tags[0]) + "," + StringifyItems(tags[1..])
  }

  /** `JSON.stringify(tags)` for an array of strings: no white space between tokens. */
  function Stringify(tags: seq<string>): string {
    if tags == [] then "[]" else "[" + StringifyItems(tags) + "]"
  }

  function Strs(tags: seq<string>): (r: seq<Item>)
    ensures |r| == |tags| && forall i :: 0 <= i < |tags| ==> r[i] == Str(tags[i])
  {
    seq(|tags|, i requires 0 <= i < |tags| => Str(tags[i]))
  }

  // ---------------------------------------------------------------------------
  // Round trip

  /** A control character without a short escape is written `\u00XX`. */
  lemma UnicodeEscapeRoundTrip(c: char, rest: string)
    requires c < ' ' && c != '\U{0008}' && c != '\t' && c != '\n' && c != '\U{000C}' && c != '\r'
    ensures ParseStringBody(EscapeChar(c) + rest) == Prepend(c, ParseStringBody(rest))
  {
    var d1, d2 := HexDigit(c as int / 16), HexDigit(c as int % 16);
    var s := EscapeChar(c) + rest;
    assert EscapeChar(c) == ['\\', 'u', '0', '0', d1, d2];
    assert s[0] == '\\' && s[1] == 'u' && ShortEscape(s[1]).None?;
    assert s[2..][..4] == ['0', '0', d1, d2];
    assert Hex4(s[2..]) == Some(c as int);
    assert s[6..] == rest;
  }

  /** A character with a two-character escape. */
  lemma ShortEscapeRoundTrip(c: char, rest: string)
    requires |EscapeChar(c)| == 2
    ensures ParseStringBody(EscapeChar(c) + rest) == Prepend(c, ParseStringBody(rest))
  {
    var s := EscapeChar(c) + rest;
    assert s[0] == '\\' && ShortEscape(s[1]) == Some(c);
    assert s[2..] == rest;
  }

  /** Reading an escaped character back gives the character. */
  lemma EscapeCharRoundTrip(c: char, rest: string)
    ensures ParseStringBody(EscapeChar(c) + rest) == Prepend(c, ParseStringBody(rest))
  {
    if c < ' ' && c != '\U{0008}' && c != '\t' && c != '\n' && c != '\U{000C}' && c != '\r' {
      UnicodeEscapeRoundTrip(c, rest);
    } else if c == '\U{0008}' || c == '\t' || c == '\n' || c == '\U{000C}' || c == '\r' || c == '"' || c == '\\' {
      ShortEscapeRoundTrip(c, rest);
    } else {
      var s := EscapeChar(c) + rest;
      assert EscapeChar(c) == [c];
      assert s[1..] == rest;
    }
  }

  /** Reading an escaped string literal back gives the string and stops at its closing quote. */
  lemma {:induction false} EscapeRoundTrip(t: string, rest: string)
    ensures ParseStringBody(Escape(t) + "\"" + rest) == Some((t, rest))
  {
    if t == [] {
      assert Escape(t) + "\"" + rest == "\"" + rest;
    } else {
      EscapeRoundTrip(t[1..], rest);
      Regroup(EscapeChar(t[0]), Escape(t[1..]), "\"", rest);
      EscapeCharRoundTrip(t[0], Escape(t[1..]) + "\"" + rest);
      assert [t[0]] + t[1..] == t;
    }
  }

  lemma QuoteRoundTrip(t: string, rest: string)
    ensures ParseItem(Quote(t) + rest) == Some((Str(t), rest))
  {
    var s := Quote(t) + rest;
    assert s[1..] == Escape(t) + "\"" + rest;
    EscapeRoundTrip(t, rest);
  }

  lemma SkipNothing(s: string)
    requires s != [] && !IsJsonWhiteSpace(s[0])
    ensures SkipWhiteSpace(s) == s
  {
  }

  /** The last element, closed by `]`. */
  lemma LastItem(t: string, rest: string)
    ensures ParseItems(Quote(t) + "]" + rest) == Some(([Str(t)], rest))
  {
    assert Quote(t) + "]" + rest == Quote(t) + ("]" + rest);
    QuoteRoundTrip(t, "]" + rest);
    SkipNothing("]" + rest);
    assert ("]" + rest)[1..] == rest;
  }

  /** An element followed by a comma and the elements after it. */
  lemma NextItem(t: string, tail: string)
    requires tail != [] && tail[0] == '"'
    ensures ParseItems(Quote(t) + "," + tail) ==
      (var q := ParseItems(tail); if q.None? then None else Some(([Str(t)] + q.value.0, q.value.1)))
  {
    assert Quote(t) + "," + tail == Quote(t) + ("," + tail);
    QuoteRoundTrip(t, "," + tail);
    SkipNothing("," + tail);
    assert ("," + tail)[1..] == tail;
    SkipNothing(tail);
  }

  lemma ItemsSplit(tags: seq<string>, rest: string)
    requires |tags| >= 2
    ensures StringifyItems(tags) + "]" + rest == Quote(tags[0]) + "," + (StringifyItems(tags[1..]) + "]" + rest)
  {
    Regroup(Quote(tags[0]) + ",", StringifyItems(tags[1..]), "]", rest);
  }

  lemma Regroup(a: string, b: string, c: string, d: string)
    ensures a + b + c + d == a + (b + c + d)
  {
  }

  lemma StrsCons(tags: seq<string>)
    requires |tags| >= 1
    ensures Strs(tags) == [Str(tags[0])] + Strs(tags[1..])
  {
    assert Strs(tags) == [Str(tags[0])] + Strs(tags[1..]);
  }

  lemma {:induction false} StringifyItemsRoundTrip(tags: seq<string>, rest: string)
    requires |tags| >= 1
    ensures ParseItems(StringifyItems(tags) + "]" + rest) == Some((Strs(tags), rest))
  {
    if |tags| == 1 {
      LastItem(tags[0], rest);
      assert [Str(tags[0])] == Strs(tags);
    } else {
      var tail := StringifyItems(tags[1..]) + "]" + rest;
      ItemsSplit(tags, rest);
      assert tail[0] == Quote(tags[1])[0] == '"';
      NextItem(tags[0], tail);
      StringifyItemsRoundTrip(tags[1..], rest);
      StrsCons(tags);
    }
  }

  /** `JSON.stringify` of an array of strings parses back to that array. */
  lemma StringifyRoundTrip(tags: seq<string>)
    ensures ParseStringArray(Stringify(tags)) == Some(Strs(tags))
  {
    var s := Stringify(tags);
    if tags == [] {
      assert s[1..] == "]";
    } else {
      var body := StringifyItems(tags) + "]" + "";
      StringifyItemsRoundTrip(tags, "");
      assert body == StringifyItems(tags) + "]";
      assert s == "[" + body;
      assert s[1..] == body;
      assert body[0] == Quote(tags[0])[0] == '"';
      SkipNothing(s);
      SkipNothing(body);
    }
  }

  /** Text that does not open with `[` (after white space) is not an array. */
  lemma NotAnArray(s: string)
    requires SkipWhiteSpace(s) == [] || SkipWhiteSpace(s)[0] != '['
    ensures ParseStringArray(s) == None
  {
  }
}
