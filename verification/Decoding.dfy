/** Decoding canonical JSON, and which definitions have the same encoding. */
module Decoding {
  import opened Texts
  import opened Options
  import opened Decimal
  import opened Canonical

  /** What a definition means: its scalars, lists and mappings, the members of a mapping in key order. */
  datatype Member = Member(name: string, value: Json)
  datatype Json =
    | VNull | VBool(flag: bool) | VInt(n: int) | VStr(text: string)
    | VArr(items: seq<Json>) | VObj(members: seq<Member>)

  // ---- writing a value ----

  function Write(v: Json): string
    decreases v, 1, 0
  {
    match v
    case VNull => "null"
    case VBool(b) => if b then "true" else "false"
    case VInt(n) => WriteInt(n)
    case VStr(s) => Quote(s)
    case VArr(items) => "[" + WriteItems(v, items) + "]"
    case VObj(members) => "{" + WriteMembers(v, members) + "}"
  }

  function WriteItems(v: Json, items: seq<Json>): string
    requires v.VArr? && forall x :: x in items ==> x in v.items
    decreases v, 0, |items|
  {
    if |items| == 0 then ""
    else
      assert items[0] in v.items;
      Write(items[0]) + if |items| == 1 then "" else "," + WriteItems(v, items[1..])
  }

  function WriteMember(m: Member, text: string): string { Quote(m.name) + ":" + text }

  function WriteMembers(v: Json, ms: seq<Member>): string
    requires v.VObj? && forall m :: m in ms ==> m in v.members
    decreases v, 0, |ms|
  {
    if |ms| == 0 then ""
    else
      assert ms[0] in v.members;
      WriteMember(ms[0], Write(ms[0].value)) + if |ms| == 1 then "" else "," + WriteMembers(v, ms[1..])
  }

  // ---- reading one ----

  datatype Parsed<T> = Bad | Good(value: T, rest: string)

  function HexValue(c: char): Option<nat> {
    if '0' <= c <= '9' then Some(c as int - '0' as int)
    else if 'a' <= c <= 'f' then Some(c as int - 'a' as int + 10)
    else None
  }

  function Unescape(c: char): Option<char> {
    if c == '"' || c == '\\' then Some(c)
    else if c == 'n' then Some('\n')
    else if c == 'r' then Some('\r')
    else if c == 't' then Some('\t')
    else if c == 'b' then Some(8 as char)
    else if c == 'f' then Some(12 as char)
    else None
  }

  /** One character of a string, escaped or not; a control character must be escaped. */
  function ParseChar(s: string): (r: Parsed<char>)
    ensures r.Good? ==> |r.rest| < |s|
  {
    if |s| == 0 || s[0] == '"' || s[0] < ' ' then Bad
    else if s[0] != '\\' then Good(s[0], s[1..])
    else if |s| >= 6 && s[1] == 'u' && s[2] == '0' && s[3] == '0' && HexValue(s[4]).Some? && HexValue(s[5]).Some? then
      Good((16 * HexValue(s[4]).value + HexValue(s[5]).value) as char, s[6..])
    else if |s| >= 2 && Unescape(s[1]).Some? then Good(Unescape(s[1]).value, s[2..])
    else Bad
  }

  /** The rest of a string, behind its opening quote. */
  function ParseText(s: string): (r: Parsed<string>)
    ensures r.Good? ==> |r.rest| < |s|
    decreases |s|
  {
    if |s| > 0 && s[0] == '"' then Good("", s[1..])
    else
      match ParseChar(s)
      case Bad => Bad
      case Good(c, more) =>
        match ParseText(more)
        case Bad => Bad
        case Good(t, rest) => Good([c] + t, rest)
  }

  function DigitsEnd(s: string, i: nat): (k: nat)
    requires i <= |s|
    ensures i <= k <= |s| && (k < |s| ==> !IsDigit(s[k])) && forall j :: i <= j < k ==> IsDigit(s[j])
    decreases |s| - i
  {
    if i < |s| && IsDigit(s[i]) then DigitsEnd(s, i + 1) else i
  }

  /** A number without leading zeros. */
  function ParseNumber(s: string): (r: Parsed<Json>)
    ensures r.Good? ==> |r.rest| < |s|
  {
    var sign := if |s| > 0 && s[0] == '-' then 1 else 0;
    var k := DigitsEnd(s, sign);
    if k == sign || (k > sign + 1 && s[sign] == '0') || (sign == 1 && s[sign] == '0') then Bad
    else
      var n: int := Value(s[sign..k]);
      Good(VInt(if sign == 1 then -n else n), s[k..])
  }

  function ParseValue(s: string): (r: Parsed<Json>)
    ensures r.Good? ==> |r.rest| < |s|
    decreases |s|, 0
  {
    if |s| == 0 then Bad
    else if StartsWith(s, "null") then Good(VNull, s[4..])
    else if StartsWith(s, "true") then Good(VBool(true), s[4..])
    else if StartsWith(s, "false") then Good(VBool(false), s[5..])
    else if s[0] == '"' then
      match ParseText(s[1..])
      case Bad => Bad
      case Good(t, rest) => Good(VStr(t), rest)
    else if s[0] == '[' then
      if |s| > 1 && s[1] == ']' then Good(VArr([]), s[2..])
      else
        match ParseItems(s[1..])
        case Bad => Bad
        case Good(items, rest) => Good(VArr(items), rest)
    else if s[0] == '{' then
      if |s| > 1 && s[1] == '}' then Good(VObj([]), s[2..])
      else
        match ParseMembers(s[1..])
        case Bad => Bad
        case Good(ms, rest) => Good(VObj(ms), rest)
    else ParseNumber(s)
  }

  function ParseItems(s: string): (r: Parsed<seq<Json>>)
    ensures r.Good? ==> |r.rest| < |s|
    decreases |s|, 1
  {
    match ParseValue(s)
    case Bad => Bad
    case Good(v, rest) =>
      if |rest| > 0 && rest[0] == ']' then Good([v], rest[1..])
      else if |rest| > 0 && rest[0] == ',' then
        match ParseItems(rest[1..])
        case Bad => Bad
        case Good(vs, rest) => Good([v] + vs, rest)
      else Bad
  }

  function ParseMember(s: string): (r: Parsed<Member>)
    ensures r.Good? ==> |r.rest| < |s|
    decreases |s|, 1
  {
    if |s| == 0 || s[0] != '"' then Bad
    else
      match ParseText(s[1..])
      case Bad => Bad
      case Good(name, rest) =>
        if |rest| == 0 || rest[0] != ':' then Bad
        else
          match ParseValue(rest[1..])
          case Bad => Bad
          case Good(v, rest) => Good(Member(name, v), rest)
  }

  function ParseMembers(s: string): (r: Parsed<seq<Member>>)
    ensures r.Good? ==> |r.rest| < |s|
    decreases |s|, 2
  {
    match ParseMember(s)
    case Bad => Bad
    case Good(m, rest) =>
      if |rest| > 0 && rest[0] == '}' then Good([m], rest[1..])
      else if |rest| > 0 && rest[0] == ',' then
        match ParseMembers(rest[1..])
        case Bad => Bad
        case Good(ms, rest) => Good([m] + ms, rest)
      else Bad
  }

  // ---- reading back what was written ----

  lemma HexIs(v: nat)
    requires v < 16
    ensures HexValue(HEX[v]) == Some(v)
  {
  }

  lemma ParseHexEscape(c: char, rest: string)
    requires |Escape(c)| == 6
    ensures ParseChar(Escape(c) + rest) == Good(c, rest)
  {
    var s, e := Escape(c) + rest, Escape(c);
    assert e == ['\\', 'u', '0', '0', HEX[c as int / 16], HEX[c as int % 16]];
    hide Escape;
    HexIs(c as int / 16);
    HexIs(c as int % 16);
    assert s[..6] == e && s[6..] == rest;
    assert s[0] == e[0] && s[1] == e[1] && s[2] == e[2] && s[3] == e[3] && s[4] == e[4] && s[5] == e[5];
    hide HexValue, Unescape;
  }

  lemma ParseEscape(c: char, rest: string)
    ensures ParseChar(Escape(c) + rest) == Good(c, rest) && |Escape(c)| > 0 && Escape(c)[0] != '"'
  {
    var s := Escape(c) + rest;
    if Escape(c) == [c] {
      assert s[0] == c && s[1..] == rest;
    } else if |Escape(c)| == 2 {
      assert s[0] == '\\' && s[1] == Escape(c)[1] && s[2..] == rest;
    } else {
      ParseHexEscape(c, rest);
    }
  }

  /** The bytes that a character takes: only quotes, backslashes and control characters are escaped, and those with a
      short escape use it. */
  function Width(c: char): nat {
    if c in "\"\\\n\r\t" || c as int == 8 || c as int == 12 then 2 else if c < ' ' then 6 else 1
  }

  function Widths(s: string): nat { if |s| == 0 then 0 else Widths(s[..|s| - 1]) + Width(s[|s| - 1]) }

  /** A string takes no more bytes than its escapes need; with `ParseQuoted` this leaves only one way to write it. */
  lemma {:induction false} EscapesShortly(s: string)
    ensures |Quote(s)| == Widths(s) + 2
  {
    if |s| > 0 { EscapesShortly(s[..|s| - 1]); }
  }

  lemma {:induction false} EscapedFirst(c: char, s: string)
    ensures Escaped([c] + s) == Escape(c) + Escaped(s)
    decreases |s|
  {
    hide Escape;
    var t := [c] + s;
    if |s| == 0 {
      assert t[..|t| - 1] == "" && t[|t| - 1] == c;
    } else {
      EscapedFirst(c, s[..|s| - 1]);
      assert t[..|t| - 1] == [c] + s[..|s| - 1] && t[|t| - 1] == s[|s| - 1];
    }
  }

  lemma {:induction false} ParseQuoted(s: string, rest: string)
    ensures ParseText(Escaped(s) + ['"'] + rest) == Good(s, rest)
    decreases |s|
  {
    hide Escape, Escaped, ParseChar;
    if |s| == 0 {
      assert Escaped(s) == "" by { EscapedNothing(); }
      assert (['"'] + rest)[1..] == rest;
      assert Escaped(s) + ['"'] + rest == ['"'] + rest;
    } else {
      var c, more := s[0], s[1..];
      assert s == [c] + more;
      EscapedFirst(c, more);
      var tail := Escaped(more) + ['"'] + rest;
      assert Escaped(s) + ['"'] + rest == Escape(c) + tail;
      ParseEscape(c, tail);
      assert (Escape(c) + tail)[0] == Escape(c)[0];
      ParseQuoted(more, rest);
    }
  }

  lemma EscapedNothing()
    ensures Escaped("") == ""
  {
  }

  /** Nothing that could continue a number. */
  predicate Stops(rest: string) { |rest| == 0 || !IsDigit(rest[0]) }

  lemma {:induction false} DigitsStop(s: string, i: nat, k: nat)
    requires i <= k <= |s| && (forall j :: i <= j < k ==> IsDigit(s[j])) && (k < |s| ==> !IsDigit(s[k]))
    ensures DigitsEnd(s, i) == k
    decreases k - i
  {
    if i < k { DigitsStop(s, i + 1, k); }
  }

  lemma ParseWritten(n: int, rest: string)
    requires Stops(rest)
    ensures ParseNumber(WriteInt(n) + rest) == Good(VInt(n), rest)
    ensures |WriteInt(n)| > 0 && (IsDigit(WriteInt(n)[0]) || WriteInt(n)[0] == '-')
  {
    hide Digits, Value;
    var a: nat := if n < 0 then -n else n;
    var d, sign := Digits(a), if n < 0 then 1 else 0;
    ValueOfDigits(a);
    var s, k := WriteInt(n) + rest, sign + |d|;
    assert forall j :: sign <= j < k ==> s[j] == d[j - sign] && IsDigit(s[j]);
    assert IsDigit(d[0]);
    assert s[sign..k] == d && s[k..] == rest;
    assert k < |s| ==> s[k] == rest[0];
    DigitsStop(s, sign, k);
    assert s[0] == WriteInt(n)[0];
    NoLeadingZero(a);
    assert s[sign] == d[0];
  }

  lemma ParseWord(v: Json, rest: string)
    requires v.VNull? || v.VBool?
    ensures ParseValue(Write(v) + rest) == Good(v, rest)
  {
    var s, w := Write(v) + rest, Write(v);
    assert s[..|w|] == w && s[|w|..] == rest;
    assert s[0] == w[0];
    if v == VBool(false) { assert s[0] == 'f'; }
  }

  lemma ParseInteger(v: Json, rest: string)
    requires v.VInt? && Stops(rest)
    ensures ParseValue(Write(v) + rest) == Good(v, rest)
  {
    hide ParseNumber, WriteInt;
    ParseWritten(v.n, rest);
    var s := WriteInt(v.n) + rest;
    assert s[0] == WriteInt(v.n)[0];
    assert !StartsWith(s, "null") && !StartsWith(s, "true") && !StartsWith(s, "false") by { FirstOfWord(s); }
  }

  lemma FirstOfWord(s: string)
    requires |s| > 0
    ensures StartsWith(s, "null") ==> s[0] == 'n'
    ensures StartsWith(s, "true") ==> s[0] == 't'
    ensures StartsWith(s, "false") ==> s[0] == 'f'
  {
    if StartsWith(s, "null") { assert s[..4][0] == 'n'; }
    if StartsWith(s, "true") { assert s[..4][0] == 't'; }
    if StartsWith(s, "false") { assert s[..5][0] == 'f'; }
  }

  lemma ParseTextValue(v: Json, rest: string)
    requires v.VStr?
    ensures ParseValue(Write(v) + rest) == Good(v, rest)
  {
    hide ParseText, Escaped;
    var s := Write(v) + rest;
    assert s[0] == '"';
    FirstOfWord(s);
    assert s[1..] == Escaped(v.text) + ['"'] + rest;
    ParseQuoted(v.text, rest);
  }

  /** No value starts like the end of a list. */
  lemma {:induction false} WriteStarts(v: Json)
    ensures |Write(v)| > 0 && Write(v)[0] != ']' && Write(v)[0] != '}'
  {
    if v.VInt? { ParseWritten(v.n, ""); }
  }

  /** The decoder reads back what was written, up to the character behind it. */
  lemma {:induction false} ParseWrite(v: Json, rest: string)
    requires Stops(rest)
    ensures ParseValue(Write(v) + rest) == Good(v, rest)
    decreases v, 1, 0
  {
    hide ParseText, ParseNumber, Quote, WriteInt, ParseItems, ParseMembers, WriteItems, WriteMembers;
    match v
    case VNull => ParseWord(v, rest);
    case VBool(_) => ParseWord(v, rest);
    case VInt(_) => ParseInteger(v, rest);
    case VStr(_) => ParseTextValue(v, rest);
    case VArr(items) =>
      var s, body := Write(v) + rest, WriteItems(v, items);
      assert s[0] == '[';
      FirstOfWord(s);
      assert s[1..] == body + "]" + rest;
      if |items| == 0 {
        assert body == "" by { NoItems(v); }
        assert s[1] == ']' && s[2..] == rest;
      } else {
        ParseWriteItems(v, items, rest);
        ItemsStart(v, items);
        assert s[1] == body[0];
      }
    case VObj(ms) =>
      var s, body := Write(v) + rest, WriteMembers(v, ms);
      assert s[0] == '{';
      FirstOfWord(s);
      assert s[1..] == body + "}" + rest;
      if |ms| == 0 {
        assert body == "" by { NoMembers(v); }
        assert s[1] == '}' && s[2..] == rest;
      } else {
        ParseWriteMembers(v, ms, rest);
        MembersStart(v, ms);
        assert s[1] == body[0];
      }
  }

  lemma NoItems(v: Json)
    requires v.VArr?
    ensures WriteItems(v, []) == ""
  {
  }

  lemma NoMembers(v: Json)
    requires v.VObj?
    ensures WriteMembers(v, []) == ""
  {
  }

  lemma ItemsStart(v: Json, items: seq<Json>)
    requires v.VArr? && (forall x :: x in items ==> x in v.items) && |items| > 0
    ensures |WriteItems(v, items)| > 0 && WriteItems(v, items)[0] != ']'
  {
    WriteStarts(items[0]);
    assert WriteItems(v, items)[0] == Write(items[0])[0];
  }

  lemma MembersStart(v: Json, ms: seq<Member>)
    requires v.VObj? && (forall m :: m in ms ==> m in v.members) && |ms| > 0
    ensures |WriteMembers(v, ms)| > 0 && WriteMembers(v, ms)[0] == '"'
  {
    assert Quote(ms[0].name)[0] == '"';
    assert WriteMembers(v, ms)[0] == Quote(ms[0].name)[0];
  }

  lemma {:induction false} ParseWriteItems(v: Json, items: seq<Json>, rest: string)
    requires v.VArr? && (forall x :: x in items ==> x in v.items) && |items| > 0
    ensures ParseItems(WriteItems(v, items) + "]" + rest) == Good(items, rest)
    decreases v, 0, |items|
  {
    hide Write, ParseValue;
    assert items[0] in v.items;
    if |items| == 1 {
      ParseWrite(items[0], "]" + rest);
      assert WriteItems(v, items) + "]" + rest == Write(items[0]) + ("]" + rest);
      assert ("]" + rest)[1..] == rest && items == [items[0]];
    } else {
      var more := WriteItems(v, items[1..]) + "]" + rest;
      ParseWrite(items[0], "," + more);
      ParseWriteItems(v, items[1..], rest);
      assert WriteItems(v, items) + "]" + rest == Write(items[0]) + ("," + more);
      assert ("," + more)[1..] == more && items == [items[0]] + items[1..];
    }
  }

  lemma {:induction false} ParseWriteMember(v: Json, m: Member, rest: string)
    requires v.VObj? && m in v.members && Stops(rest)
    ensures ParseMember(WriteMember(m, Write(m.value)) + rest) == Good(m, rest)
    decreases v, 0, 0
  {
    hide Write, ParseValue, ParseText, Escaped;
    var s := WriteMember(m, Write(m.value)) + rest;
    var tail := ":" + Write(m.value) + rest;
    assert s[0] == '"' && s[1..] == Escaped(m.name) + ['"'] + tail;
    ParseQuoted(m.name, tail);
    assert tail[0] == ':' && tail[1..] == Write(m.value) + rest;
    ParseWrite(m.value, rest);
  }

  lemma {:induction false} ParseWriteMembers(v: Json, ms: seq<Member>, rest: string)
    requires v.VObj? && (forall m :: m in ms ==> m in v.members) && |ms| > 0
    ensures ParseMembers(WriteMembers(v, ms) + "}" + rest) == Good(ms, rest)
    decreases v, 0, |ms|
  {
    hide Write, ParseMember, WriteMember;
    var m := ms[0];
    assert m in v.members;
    var text := WriteMember(m, Write(m.value));
    if |ms| == 1 {
      ParseWriteMember(v, m, "}" + rest);
      assert WriteMembers(v, ms) + "}" + rest == text + ("}" + rest);
      assert ("}" + rest)[1..] == rest && ms == [m];
    } else {
      var more := WriteMembers(v, ms[1..]) + "}" + rest;
      ParseWriteMember(v, m, "," + more);
      ParseWriteMembers(v, ms[1..], rest);
      assert WriteMembers(v, ms) + "}" + rest == text + ("," + more);
      assert ("," + more)[1..] == more && ms == [m] + ms[1..];
    }
  }

  /** Different values are written differently. */
  lemma WriteIsInjective(a: Json, b: Json)
    requires Write(a) == Write(b)
    ensures a == b
  {
    hide Write, ParseValue;
    ParseWrite(a, "");
    ParseWrite(b, "");
    assert Write(a) + "" == Write(a) && Write(b) + "" == Write(b);
  }
}
