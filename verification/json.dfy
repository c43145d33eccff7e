/** The JSON text `JSON.stringify` produces for a task's parameter list, which the
    planning prompt embeds. Strings are quoted as section 25.5.2.3 of ECMAScript 2023
    (QuoteJSONString) describes; a decoder for the escapes gives the quoting a
    partner to be checked against. */
module Json {
  import opened Wrappers
  import opened Strings
  import opened Types

  function HexDigit(d: nat): (c: char)
    requires d < 16
  {
    "0123456789abcdef"[d]
  }

  function HexValue(c: char): (v: Option<nat>)
    ensures v.Some? ==> v.value < 16
  {
    if '0' <= c <= '9' then Some(c as int - '0' as int)
    else if 'a' <= c <= 'f' then Some(c as int - 'a' as int + 10)
    else if 'A' <= c <= 'F' then Some(c as int - 'A' as int + 10)
    else None
  }

  lemma HexValueOfDigit(d: nat)
    requires d < 16
    ensures HexValue(HexDigit(d)) == Some(d)
  {
  }

  /** The escape JSON.stringify writes for one character. */
  function EscapeChar(c: char): (e: string)
    ensures |e| >= 1
  {
    if c == '"' then "\\\""
    else if c == '\\' then "\\\\"
    else if c == '\U{8}' then "\\b"
    else if c == '\t' then "\\t"
    else if c == '\n' then "\\n"
    else if c == '\U{C}' then "\\f"
    else if c == '\r' then "\\r"
    else if (c as int) < 0x20 then "\\u00" + [HexDigit(c as int / 16), HexDigit(c as int % 16)]
    else [c]
  }

  function Escape(s: string): string
    decreases |s|
  {
    if |s| == 0 then "" else EscapeChar(s[0]) + Escape(s[1..])
  }

  /** A JSON string literal holding `s`. */
  function Quote(s: string): string {
    "\"" + Escape(s) + "\""
  }

  /** The character a one-letter escape `\e` stands for. */
  function SimpleEscape(e: char): Option<char> {
    if e == '"' then Some('"')
    else if e == '\\' then Some('\\')
    else if e == '/' then Some('/')
    else if e == 'b' then Some('\U{8}')
    else if e == 'f' then Some('\U{C}')
    else if e == 'n' then Some('\n')
    else if e == 'r' then Some('\r')
    else if e == 't' then Some('\t')
    else None
  }

  /** The code point written by four hex digits. */
  function Hex4(h: string): (v: Option<nat>)
    requires |h| == 4
    ensures v.Some? ==> v.value < 0x10000
  {
    var a, b, c, d := HexValue(h[0]), HexValue(h[1]), HexValue(h[2]), HexValue(h[3]);
    if a.Some? && b.Some? && c.Some? && d.Some? then
      Some(a.value * 4096 + b.value * 256 + c.value * 16 + d.value)
    else None
  }

  function Prepend(c: char, r: Option<string>): Option<string> {
    match r
    case None => None
    case Some(s) => Some([c] + s)
  }

  /** The characters the body of a JSON string literal denotes, or None when the body
      is malformed (a raw quote or control character, or an unknown escape). */
  function Unescape(t: string): Option<string>
    decreases |t|
  {
    if |t| == 0 then Some("")
    else if t[0] == '"' || (t[0] as int) < 0x20 then None
    else if t[0] != '\\' then Prepend(t[0], Unescape(t[1..]))
    else if |t| < 2 then None
    else if t[1] == 'u' then
      if |t| < 6 then None
      else match Hex4(t[2..6])
        case None => None
        case Some(code) =>
          if code < 0xD800 || 0xE000 <= code then Prepend(code as char, Unescape(t[6..]))
          else None
    else match SimpleEscape(t[1])
      case None => None
      case Some(c) => Prepend(c, Unescape(t[2..]))
  }

  /** A JSON string literal's contents, or None when `q` is not one. */
  function Unquote(q: string): Option<string> {
    if |q| >= 2 && q[0] == '"' && q[|q| - 1] == '"' then Unescape(q[1..|q| - 1]) else None
  }

  lemma {:induction false} UnescapeEscapeChar(c: char, rest: string)
    ensures Unescape(EscapeChar(c) + rest) == Prepend(c, Unescape(rest))
  {
    var t := EscapeChar(c) + rest;
    if c == '"' || c == '\\' || c == '\U{8}' || c == '\t' || c == '\n' || c == '\U{C}' || c == '\r' {
      assert t[2..] == rest;
    } else if (c as int) < 0x20 {
      UnescapeHexEscape(c, rest);
    } else {
      assert t[1..] == rest;
    }
  }

  /** A control character without a short escape decodes from its `\u00XX` form. */
  lemma UnescapeHexEscape(c: char, rest: string)
    requires (c as int) < 0x20 && EscapeChar(c)[1] == 'u'
    ensures Unescape(EscapeChar(c) + rest) == Prepend(c, Unescape(rest))
  {
    var t := EscapeChar(c) + rest;
    var n := c as int;
    HexValueOfDigit(n / 16);
    HexValueOfDigit(n % 16);
    var e := "\\u00" + [HexDigit(n / 16), HexDigit(n % 16)];
    assert EscapeChar(c) == e;
    SliceOfPrefix(e, rest, 2, 6);
    assert e[2..6] == "00" + [HexDigit(n / 16), HexDigit(n % 16)];
    assert Hex4(t[2..6]) == Some(n);
    assert t[6..] == rest;
  }

  /** Decoding a quoted string gives back the original characters. */
  lemma {:induction false} UnescapeEscape(s: string)
    ensures Unescape(Escape(s)) == Some(s)
    decreases |s|
  {
    if |s| > 0 {
      UnescapeEscapeChar(s[0], Escape(s[1..]));
      UnescapeEscape(s[1..]);
      assert [s[0]] + s[1..] == s;
    }
  }

  lemma QuoteRoundTrip(s: string)
    ensures Unquote(Quote(s)) == Some(s)
  {
    var q := Quote(s);
    assert q[1..|q| - 1] == Escape(s);
    UnescapeEscape(s);
  }

  /** Escaping never writes a line break or other control character. */
  lemma {:induction false} EscapeHasNoControl(s: string)
    ensures forall k :: 0 <= k < |Escape(s)| ==> (Escape(s)[k] as int) >= 0x20
    decreases |s|
  {
    if |s| > 0 {
      EscapeHasNoControl(s[1..]);
      var e := EscapeChar(s[0]);
      assert forall k :: 0 <= k < |e| ==> (e[k] as int) >= 0x20;
    }
  }

  /** One parameter as `JSON.stringify` writes it: the fields in declaration order
      (name, value, required), absent ones left out. */
  function ParamJson(p: TaskParam): (j: string)
    ensures OccursAt(j, "{\"name\":" + Quote(p.name), 0)
    ensures j[|j| - 1] == '}'
  {
    var head := "{\"name\":" + Quote(p.name);
    var v := if p.value.Some? then ",\"value\":" + Quote(p.value.value) else "";
    var r := if p.required.Some? then ",\"required\":" + (if p.required.value then "true" else "false") else "";
    ObjectLayout(head, v, r);
    head + v + r + "}"
  }

  /** The members of a parameter's object: its `name`, then its `value` exactly when
      it has one, then `"required":true` or `"required":false` exactly when the flag
      is set, then `}`. The positions and the length leave no other text. */
  lemma ParamJsonMembers(p: TaskParam)
    ensures var j, head := ParamJson(p), "{\"name\":" + Quote(p.name);
            && OccursAt(j, head, 0)
            && (p.value.Some? ==> OccursAt(j, ",\"value\":" + Quote(p.value.value), |head|))
            && (p.required == Some(true) ==> |j| >= 17 && j[|j| - 17..] == ",\"required\":true}")
            && (p.required == Some(false) ==> |j| >= 18 && j[|j| - 18..] == ",\"required\":false}")
            && |j| == |head| + (if p.value.Some? then |",\"value\":" + Quote(p.value.value)| else 0)
                      + (if p.required.Some? then (if p.required.value then 16 else 17) else 0) + 1
  {
    var head := "{\"name\":" + Quote(p.name);
    var v := if p.value.Some? then ",\"value\":" + Quote(p.value.value) else "";
    var r := if p.required.Some? then ",\"required\":" + (if p.required.value then "true" else "false") else "";
    ObjectLayout(head, v, r);
    RequiredMember(p.required);
  }

  /** `JSON.stringify(params)`. */
  function ParamsJson(ps: seq<TaskParam>): (j: string)
    ensures |j| >= 2 && j[0] == '[' && j[|j| - 1] == ']'
    ensures |ps| == 0 <==> j == "[]"
  {
    var body := Join(seq(|ps|, k requires 0 <= k < |ps| => ParamJson(ps[k])), ",");
    assert |ps| > 0 ==> |body| > 0 by {
      if |ps| > 0 {
        assert |ParamJson(ps[0])| > 0;
        JoinFirstPart(seq(|ps|, k requires 0 <= k < |ps| => ParamJson(ps[k])), ",");
      }
    }
    "[" + body + "]"
  }

  /** The `required` member and the closing brace, as one literal. */
  lemma RequiredMember(req: Option<bool>)
    ensures req == Some(true) ==> ",\"required\":" + "true" + "}" == ",\"required\":true}"
    ensures req == Some(false) ==> ",\"required\":" + "false" + "}" == ",\"required\":false}"
  {
  }

  /** An object written as a head, an optional value member, an optional required
      member and a closing brace: each part sits where it was put. */
  lemma ObjectLayout(head: string, v: string, r: string)
    ensures var s := head + v + r + "}";
            |s| == |head| + |v| + |r| + 1 && OccursAt(s, head, 0) && OccursAt(s, v, |head|)
            && s[|s| - |r| - 1..] == r + "}"
  {
    var s := head + v + r + "}";
    assert s[..|head|] == head;
    assert s[|head|..|head| + |v|] == v;
    assert s[|s| - |r| - 1..] == r + "}";
  }

  /** The list of one more parameter: its object is appended after a comma, or alone
      when the list was empty. Together with `[]` for the empty list this fixes the
      list's text, element by element in order. */
  lemma ParamsJsonSnoc(ps: seq<TaskParam>, p: TaskParam)
    ensures var j := ParamsJson(ps);
            ParamsJson(ps + [p]) == j[..|j| - 1] + (if |ps| == 0 then "" else ",") + ParamJson(p) + "]"
  {
    var parts := seq(|ps|, k requires 0 <= k < |ps| => ParamJson(ps[k]));
    var qs := ps + [p];
    var parts2 := seq(|qs|, k requires 0 <= k < |qs| => ParamJson(qs[k]));
    var x := ParamJson(p);
    assert parts2 == parts + [x];
    var b := Join(parts, ",");
    var j := ParamsJson(ps);
    assert j == "[" + b + "]";
    assert j[..|j| - 1] == "[" + b;
    if |ps| == 0 {
      assert parts2 == [x];
    } else {
      JoinSnoc(parts, x, ",");
      AppendAssoc("[", b + ",", x);
      AppendAssoc("[", b, ",");
    }
  }

  /** Every parameter's object appears, whole, in the list's JSON. */
  lemma ParamsJsonHasEach(ps: seq<TaskParam>, k: nat)
    requires k < |ps|
    ensures Contains(ParamsJson(ps), ParamJson(ps[k]))
  {
    var parts := seq(|ps|, k requires 0 <= k < |ps| => ParamJson(ps[k]));
    var body := Join(parts, ",");
    var i := JoinHasPart(parts, ",", k);
    OccursAfter("[", body, parts[k], i);
    OccursBefore("[" + body, "]", parts[k], 1 + i);
    ContainsIff(ParamsJson(ps), ParamJson(ps[k]));
  }

  /** Text with no quote, backslash or control character is written as it is. */
  lemma {:induction false} EscapePlain(s: string)
    requires forall k :: 0 <= k < |s| ==> s[k] != '"' && s[k] != '\\' && (s[k] as int) >= 0x20
    ensures Escape(s) == s
    decreases |s|
  {
    if |s| > 0 {
      EscapePlain(s[1..]);
      assert [s[0]] + s[1..] == s;
    }
  }

  /** A list of one parameter is that parameter's object in brackets. */
  lemma SingleParamJson(p: TaskParam)
    ensures ParamsJson([p]) == "[" + ParamJson(p) + "]"
  {
    var parts := seq(1, k requires 0 <= k < 1 => ParamJson([p][k]));
    assert parts == [ParamJson(p)];
  }

  /** A word of letters and spaces is quoted without any escape. */
  lemma QuotePlainWord(s: string)
    requires forall k :: 0 <= k < |s| ==> s[k] == ' ' || 'a' <= s[k] <= 'z'
    ensures Quote(s) == "\"" + s + "\""
  {
    EscapePlain(s);
  }

  /** A required parameter with a value, both plain words, as `JSON.stringify`
      writes a list holding only it. */
  lemma RequiredParamJson(name: string, value: string)
    requires forall k :: 0 <= k < |name| ==> name[k] == ' ' || 'a' <= name[k] <= 'z'
    requires forall k :: 0 <= k < |value| ==> value[k] == ' ' || 'a' <= value[k] <= 'z'
    ensures ParamsJson([TaskParam(name, Some(value), Some(true))])
            == "[{\"name\":\"" + name + "\",\"value\":\"" + value + "\",\"required\":true}]"
  {
    SingleParamJson(TaskParam(name, Some(value), Some(true)));
    QuotePlainWord(name);
    QuotePlainWord(value);
    JsonLiterals();
    JsonPieces("[", "{\"name\":" , "\"", name, ",\"value\":", value, ",\"required\":" + "true", "}", "]");
  }

  lemma JsonLiterals()
    ensures "[{\"name\":\"" == "[" + "{\"name\":" + "\""
    ensures "\",\"value\":\"" == "\"" + ",\"value\":" + "\""
    ensures "\",\"required\":true}]" == "\"" + (",\"required\":" + "true") + "}" + "]"
  {
  }

  lemma JsonPieces(lb: string, open: string, q: string, name: string, vk: string, value: string,
                   req: string, close: string, rb: string)
    ensures lb + (open + (q + name + q) + (vk + (q + value + q)) + req + close) + rb
            == (lb + open + q) + name + (q + vk + q) + value + (q + req + close + rb)
  {
  }

  lemma JoinFirstPart(parts: seq<string>, sep: string)
    requires |parts| >= 1
    ensures |Join(parts, sep)| >= |parts[0]|
  {
  }
}
