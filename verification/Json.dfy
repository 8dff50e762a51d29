/**
 * The part of JSON the local store needs: flat objects whose values are
 * strings or non-negative integers, written the way `JSON.stringify` writes
 * them and read back the way `JSON.parse` reads them.
 *
 * `Parse` accepts exactly the documents of that shape, with any JSON
 * whitespace between tokens and every string escape of the JSON grammar
 * except `\u` escapes of surrogate code units. It answers `None` for
 * everything else, numbers with a fraction or an exponent included.
 * `RoundTrip` proves that it reads back whatever `Stringify` wrote.
 */
module Json {
  import opened Wrappers

  datatype Value = Str(s: string) | Num(n: nat)

  /** An object's members in insertion order, as a JavaScript object keeps them. */
  type Object = seq<(string, Value)>

  /** The value of `key`; with repeated keys the last one wins, as in `JSON.parse`. */
  function Lookup(o: Object, key: string): (r: Option<Value>)
    ensures r.Some? ==> exists i :: 0 <= i < |o| && o[i] == (key, r.value) && LastWithKey(o, key, i)
    ensures r.None? ==> forall m :: m in o ==> m.0 != key
  {
    if o == [] then None
    else if o[|o| - 1].0 == key then Some(o[|o| - 1].1)
    else
      var r := Lookup(o[..|o| - 1], key);
      if r.Some? then
        var i :| 0 <= i < |o| - 1 && o[..|o| - 1][i] == (key, r.value) && LastWithKey(o[..|o| - 1], key, i);
        assert o[i] == (key, r.value) && LastWithKey(o, key, i);
        r
      else
        assert forall m :: m in o[..|o| - 1] ==> m.0 != key;
        assert forall j :: 0 <= j < |o| - 1 ==> o[j] in o[..|o| - 1];
        r
  }

  /** No member after position `i` has the key. */
  predicate LastWithKey(o: Object, key: string, i: int) {
    forall j :: 0 <= j < |o| && i < j ==> o[j].0 != key
  }

  // ---------------------------------------------------------------- digits

  predicate IsDigit(c: char) {
    '0' <= c <= '9'
  }

  function DigitChar(d: nat): (c: char)
    requires d < 10
    ensures IsDigit(c)
  {
    ('0' as int + d) as char
  }

  function DigitValue(c: char): nat {
    if IsDigit(c) then c as int - '0' as int else 0
  }

  function HexDigitChar(d: nat): (c: char)
    requires d < 16
  {
    if d < 10 then ('0' as int + d) as char else ('a' as int + d - 10) as char
  }

  predicate IsHexDigit(c: char) {
    IsDigit(c) || 'a' <= c <= 'f' || 'A' <= c <= 'F'
  }

  function HexDigitValue(c: char): (d: nat)
    ensures d < 16
  {
    if IsDigit(c) then c as int - '0' as int
    else if 'a' <= c <= 'f' then c as int - 'a' as int + 10
    else if 'A' <= c <= 'F' then c as int - 'A' as int + 10
    else 0
  }

  lemma HexDigitCharValue(d: nat)
    requires d < 16
    ensures IsHexDigit(HexDigitChar(d)) && HexDigitValue(HexDigitChar(d)) == d
  {
  }

  function Pow16(k: nat): (p: nat)
    ensures p >= 1
  {
    if k == 0 then 1 else 16 * Pow16(k - 1)
  }

  /** The number written by the hexadecimal digits `ds`, most significant first. */
  function HexNumber(ds: string): (n: nat)
    ensures n < Pow16(|ds|)
  {
    if ds == [] then 0
    else HexNumber(ds[..|ds| - 1]) * 16 + HexDigitValue(ds[|ds| - 1])
  }

  predicate AllHex(ds: string) {
    forall i :: 0 <= i < |ds| ==> IsHexDigit(ds[i])
  }

  /** The number written by the decimal digits `ds`, most significant first. */
  function DigitsValue(ds: string): nat {
    if ds == [] then 0
    else DigitsValue(ds[..|ds| - 1]) * 10 + DigitValue(ds[|ds| - 1])
  }

  /** The longest prefix of `s` made of decimal digits. */
  function DigitRun(s: string): (r: string)
    ensures r <= s
    ensures forall i :: 0 <= i < |r| ==> IsDigit(r[i])
    ensures |r| < |s| ==> !IsDigit(s[|r|])
  {
    if s == [] || !IsDigit(s[0]) then [] else [s[0]] + DigitRun(s[1..])
  }

  /** `n` in decimal, without leading zeros, as `JSON.stringify` writes a number. */
  function Decimal(n: nat): (r: string)
    ensures |r| > 0
    ensures forall i :: 0 <= i < |r| ==> IsDigit(r[i])
  {
    if n < 10 then [DigitChar(n)] else Decimal(n / 10) + [DigitChar(n % 10)]
  }

  // --------------------------------------------------------- serialisation

  /** How `JSON.stringify` writes one character inside a string literal. */
  function EscapeChar(c: char): string {
    if c == '"' then "\\\""
    else if c == '\\' then "\\\\"
    else if c as int == 0x08 then "\\b"
    else if c == '\t' then "\\t"
    else if c == '\n' then "\\n"
    else if c as int == 0x0C then "\\f"
    else if c == '\r' then "\\r"
    else if c as int < 0x20 then "\\u00" + [HexDigitChar(c as int / 16), HexDigitChar(c as int % 16)]
    else [c]
  }

  function Escape(s: string): string {
    if s == [] then [] else EscapeChar(s[0]) + Escape(s[1..])
  }

  function Quote(s: string): string {
    "\"" + Escape(s) + "\""
  }

  function ValueText(v: Value): string {
    match v
    case Str(s) => Quote(s)
    case Num(n) => Decimal(n)
  }

  function MemberText(m: (string, Value)): string {
    Quote(m.0) + ":" + ValueText(m.1)
  }

  function Members(o: Object): string
    decreases |o|
  {
    if |o| == 0 then ""
    else if |o| == 1 then MemberText(o[0])
    else MemberText(o[0]) + "," + Members(o[1..])
  }

  /** `JSON.stringify` of a flat object: no whitespace, members in order. */
  function Stringify(o: Object): (text: string)
    ensures |text| >= 2 && text[0] == '{' && text[|text| - 1] == '}'
  {
    "{" + Members(o) + "}"
  }

  // --------------------------------------------------------------- parsing

  predicate IsWs(c: char) {
    c == ' ' || c == '\t' || c == '\n' || c == '\r'
  }

  function SkipWs(s: string): (r: string)
    ensures |r| <= |s|
  {
    if s != [] && IsWs(s[0]) then SkipWs(s[1..]) else s
  }

  /** One escape sequence; `s` starts just after the backslash. */
  function ParseEscape(s: string): (r: Option<(char, string)>)
    ensures r.Some? ==> |r.value.1| < |s|
  {
    if s == [] then None
    else if s[0] == '"' then Some(('"', s[1..]))
    else if s[0] == '\\' then Some(('\\', s[1..]))
    else if s[0] == '/' then Some(('/', s[1..]))
    else if s[0] == 'b' then Some((0x08 as char, s[1..]))
    else if s[0] == 'f' then Some((0x0C as char, s[1..]))
    else if s[0] == 'n' then Some(('\n', s[1..]))
    else if s[0] == 'r' then Some(('\r', s[1..]))
    else if s[0] == 't' then Some(('\t', s[1..]))
    else if s[0] == 'u' && |s| >= 5 && AllHex(s[1..5]) then
      var v := HexNumber(s[1..5]);
      assert Pow16(4) == 65536;
      if 0xD800 <= v < 0xE000 then None else Some((v as char, s[5..]))
    else None
  }

  /** The rest of a string literal; `s` starts just after the opening quote. */
  function ParseStringBody(s: string): (r: Option<(string, string)>)
    ensures r.Some? ==> |r.value.1| < |s|
    decreases |s|
  {
    if s == [] then None
    else if s[0] == '"' then Some(([], s[1..]))
    else if s[0] == '\\' then
      var e := ParseEscape(s[1..]);
      if e.None? then None
      else
        var tail := ParseStringBody(e.value.1);
        if tail.None? then None else Some(([e.value.0] + tail.value.0, tail.value.1))
    else if s[0] as int < 0x20 then None
    else
      var tail := ParseStringBody(s[1..]);
      if tail.None? then None else Some(([s[0]] + tail.value.0, tail.value.1))
  }

  /** A non-negative integer: `0`, or a non-zero digit followed by digits. */
  function ParseNat(s: string): (r: Option<(nat, string)>)
    ensures r.Some? ==> |r.value.1| < |s|
  {
    if s == [] || !IsDigit(s[0]) then None
    else if s[0] == '0' then Some((0, s[1..]))
    else
      var ds := DigitRun(s);
      Some((DigitsValue(ds), s[|ds|..]))
  }

  function ParseValue(s: string): (r: Option<(Value, string)>)
    ensures r.Some? ==> |r.value.1| < |s|
  {
    if s == [] then None
    else if s[0] == '"' then
      var str := ParseStringBody(s[1..]);
      if str.None? then None else Some((Str(str.value.0), str.value.1))
    else
      var n := ParseNat(s);
      if n.None? then None else Some((Num(n.value.0), n.value.1))
  }

  /** The text after a member's key: `: value`. */
  function ParseColonValue(t: string): (r: Option<(Value, string)>)
    ensures r.Some? ==> |r.value.1| < |t|
  {
    var t1 := SkipWs(t);
    if t1 == [] || t1[0] != ':' then None else ParseValue(SkipWs(t1[1..]))
  }

  /** `"key" : value`; `s` starts at the key's opening quote. */
  function ParseMember(s: string): (r: Option<((string, Value), string)>)
    ensures r.Some? ==> |r.value.1| < |s|
  {
    if s == [] || s[0] != '"' then None
    else
      var key := ParseStringBody(s[1..]);
      if key.None? then None
      else
        var v := ParseColonValue(key.value.1);
        if v.None? then None else Some(((key.value.0, v.value.0), v.value.1))
  }

  /** One or more members separated by commas, through the closing brace. */
  function ParseMemberList(s: string): (r: Option<(Object, string)>)
    ensures r.Some? ==> |r.value.1| < |s|
    decreases |s|
  {
    var m := ParseMember(s);
    if m.None? then None
    else
      var t1 := SkipWs(m.value.1);
      if t1 == [] then None
      else if t1[0] == '}' then Some(([m.value.0], t1[1..]))
      else if t1[0] == ',' then
        var ms := ParseMemberList(SkipWs(t1[1..]));
        if ms.None? then None else Some(([m.value.0] + ms.value.0, ms.value.1))
      else None
  }

  /** `JSON.parse`, for documents that are one flat object; `None` where it would throw or where the document has another shape. */
  function Parse(text: string): (r: Option<Object>)
    ensures r.Some? ==> SkipWs(text) != [] && SkipWs(text)[0] == '{'
    ensures SkipWs(text) == [] ==> r.None?
  {
    var t := SkipWs(text);
    if t == [] || t[0] != '{' then None
    else
      var t1 := SkipWs(t[1..]);
      if t1 != [] && t1[0] == '}' then
        if SkipWs(t1[1..]) == [] then Some([]) else None
      else
        var ms := ParseMemberList(t1);
        if ms.None? then None
        else if SkipWs(ms.value.1) == [] then Some(ms.value.0)
        else None
  }

  // ------------------------------------------------------------ round trip

  lemma SkipWsNoWs(s: string)
    requires s == [] || !IsWs(s[0])
    ensures SkipWs(s) == s
  {
  }

  /** Every character `Escape` writes comes back from one step of the string parser. */
  lemma EscapeCharRoundTrip(c: char, rest: string)
    ensures ParseStringBody(EscapeChar(c) + rest) == match ParseStringBody(rest)
                                                     case None => None
                                                     case Some((body, r)) => Some(([c] + body, r))
  {
    var s := EscapeChar(c) + rest;
    if c == '"' || c == '\\' || c as int == 0x08 || c == '\t' || c == '\n' || c as int == 0x0C || c == '\r' {
      assert s[0] == '\\' && s[2..] == rest;
      assert ParseEscape(s[1..]) == Some((c, rest));
    } else if c as int < 0x20 {
      var hi, lo := c as int / 16, c as int % 16;
      HexDigitCharValue(hi);
      HexDigitCharValue(lo);
      var quad := s[2..6];
      assert quad == ['0', '0', HexDigitChar(hi), HexDigitChar(lo)];
      assert AllHex(quad);
      assert HexNumber(['0']) == 0 by { assert ['0'][..0] == []; }
      assert HexNumber(['0', '0']) == 0 by { assert ['0', '0'][..1] == ['0']; }
      assert HexNumber(['0', '0', HexDigitChar(hi)]) == hi by {
        assert ['0', '0', HexDigitChar(hi)][..2] == ['0', '0'];
      }
      assert quad[..3] == ['0', '0', HexDigitChar(hi)];
      assert HexNumber(quad) == hi * 16 + lo;
      var e := s[1..];
      assert e[0] == 'u' && |e| >= 5 && e[1..5] == quad && e[5..] == rest;
      assert (hi * 16 + lo) as char == c;
      assert ParseEscape(e) == Some((c, rest));
    } else {
      assert s[0] == c && s[1..] == rest;
    }
  }

  lemma {:induction false} EscapeRoundTrip(s: string, rest: string)
    ensures ParseStringBody(Escape(s) + "\"" + rest) == Some((s, rest))
  {
    if s == [] {
      assert Escape(s) + "\"" + rest == "\"" + rest;
    } else {
      assert Escape(s) + "\"" + rest == EscapeChar(s[0]) + (Escape(s[1..]) + "\"" + rest);
      EscapeRoundTrip(s[1..], rest);
      EscapeCharRoundTrip(s[0], Escape(s[1..]) + "\"" + rest);
      assert [s[0]] + s[1..] == s;
    }
  }

  lemma {:induction false} DigitRunAppend(ds: string, rest: string)
    requires forall i :: 0 <= i < |ds| ==> IsDigit(ds[i])
    requires rest == [] || !IsDigit(rest[0])
    ensures DigitRun(ds + rest) == ds
  {
    if ds != [] {
      assert (ds + rest)[1..] == ds[1..] + rest;
      DigitRunAppend(ds[1..], rest);
      assert [ds[0]] + ds[1..] == ds;
    }
  }

  lemma {:induction false} DecimalValue(n: nat)
    ensures DigitsValue(Decimal(n)) == n
  {
    if n >= 10 {
      var d := Decimal(n);
      assert d[..|d| - 1] == Decimal(n / 10);
      DecimalValue(n / 10);
    }
  }

  lemma {:induction false} DecimalNoLeadingZero(n: nat)
    requires n > 0
    ensures Decimal(n)[0] != '0'
  {
    if n >= 10 {
      DecimalNoLeadingZero(n / 10);
    }
  }

  lemma DecimalRoundTrip(n: nat, rest: string)
    requires rest == [] || !IsDigit(rest[0])
    ensures ParseNat(Decimal(n) + rest) == Some((n, rest))
  {
    var s := Decimal(n) + rest;
    if n == 0 {
      assert s[0] == '0' && s[1..] == rest;
    } else {
      DecimalNoLeadingZero(n);
      DigitRunAppend(Decimal(n), rest);
      DecimalValue(n);
      assert s[|Decimal(n)|..] == rest;
    }
  }

  lemma ValueRoundTrip(v: Value, rest: string)
    requires rest == [] || !IsDigit(rest[0])
    ensures ParseValue(ValueText(v) + rest) == Some((v, rest))
  {
    match v
    case Str(s) =>
      var t := ValueText(v) + rest;
      assert t[1..] == Escape(s) + "\"" + rest;
      EscapeRoundTrip(s, rest);
    case Num(n) =>
      DecimalRoundTrip(n, rest);
  }

  lemma ColonValueRoundTrip(v: Value, rest: string)
    requires rest == [] || !IsDigit(rest[0])
    ensures ParseColonValue(":" + ValueText(v) + rest) == Some((v, rest))
  {
    var t := ":" + ValueText(v) + rest;
    SkipWsNoWs(t);
    var w := ValueText(v) + rest;
    assert t[1..] == w;
    assert w[0] == '"' || IsDigit(w[0]);
    SkipWsNoWs(w);
    ValueRoundTrip(v, rest);
  }

  lemma MemberRoundTrip(m: (string, Value), rest: string)
    requires rest == [] || !IsDigit(rest[0])
    ensures ParseMember(MemberText(m) + rest) == Some((m, rest))
  {
    var afterKey := ":" + ValueText(m.1) + rest;
    var body := Escape(m.0) + "\"" + afterKey;
    Regroup6("\"", Escape(m.0), "\"", ":", ValueText(m.1), rest);
    assert MemberText(m) + rest == "\"" + body;
    assert (MemberText(m) + rest)[1..] == body;
    EscapeRoundTrip(m.0, afterKey);
    ColonValueRoundTrip(m.1, rest);
  }

  lemma Regroup6(a: string, b: string, c: string, d: string, e: string, f: string)
    ensures a + b + c + d + e + f == a + (b + c + (d + e + f))
  {
  }

  lemma MemberListLast(m: (string, Value), rest: string)
    ensures ParseMemberList(MemberText(m) + ("}" + rest)) == Some(([m], rest))
  {
    MemberRoundTrip(m, "}" + rest);
    SkipWsNoWs("}" + rest);
  }

  lemma MemberListCons(m: (string, Value), tail: string)
    requires tail != [] && tail[0] == '"'
    ensures ParseMemberList(MemberText(m) + ("," + tail))
            == var ms := ParseMemberList(tail);
               if ms.None? then None else Some(([m] + ms.value.0, ms.value.1))
  {
    MemberRoundTrip(m, "," + tail);
    SkipWsNoWs("," + tail);
    assert ("," + tail)[1..] == tail;
    SkipWsNoWs(tail);
  }

  lemma MembersStartWithQuote(o: Object, rest: string)
    requires o != []
    ensures (Members(o) + rest)[0] == '"'
  {
    if |o| == 1 {
      assert Members(o) + rest == MemberText(o[0]) + rest;
    } else {
      assert Members(o) + rest == MemberText(o[0]) + ("," + Members(o[1..]) + rest);
    }
  }

  lemma MembersSplit(o: Object, rest: string)
    requires |o| >= 2
    ensures Members(o) + "}" + rest == MemberText(o[0]) + ("," + (Members(o[1..]) + ("}" + rest)))
  {
    var first, others := MemberText(o[0]), Members(o[1..]);
    assert Members(o) == first + "," + others;
    Regroup(first, ",", others, "}" + rest);
    assert Members(o) + "}" + rest == Members(o) + ("}" + rest);
  }

  lemma Regroup(a: string, b: string, c: string, d: string)
    ensures a + b + c + d == a + (b + (c + d))
  {
  }

  lemma {:induction false} MembersRoundTrip(o: Object, rest: string)
    requires o != []
    ensures ParseMemberList(Members(o) + "}" + rest) == Some((o, rest))
  {
    var text := Members(o) + "}" + rest;
    if |o| == 1 {
      assert text == MemberText(o[0]) + ("}" + rest);
      MemberListLast(o[0], rest);
      assert [o[0]] == o;
    } else {
      var tail := Members(o[1..]) + ("}" + rest);
      MembersSplit(o, rest);
      MembersStartWithQuote(o[1..], "}" + rest);
      MemberListCons(o[0], tail);
      assert tail == Members(o[1..]) + "}" + rest;
      MembersRoundTrip(o[1..], rest);
      assert [o[0]] + o[1..] == o;
    }
  }

  /** What `Stringify` writes, `Parse` reads back unchanged. */
  lemma RoundTrip(o: Object)
    ensures Parse(Stringify(o)) == Some(o)
  {
    if o == [] {
      EmptyRoundTrip();
    } else {
      NonEmptyRoundTrip(o);
    }
  }

  lemma EmptyRoundTrip()
    ensures Parse(Stringify([])) == Some([])
  {
    var text := Stringify([]);
    assert text == "{}";
    SkipWsNoWs(text);
    assert text[1..] == "}";
    SkipWsNoWs(text[1..]);
    assert SkipWs(text[1..][1..]) == [];
  }

  lemma NonEmptyRoundTrip(o: Object)
    requires o != []
    ensures Parse(Stringify(o)) == Some(o)
  {
    var body := Members(o) + "}";
    assert Stringify(o) == "{" + body;
    MembersStartWithQuote(o, "}");
    assert Members(o) + "}" + "" == body;
    MembersRoundTrip(o, "");
    ParseBraced(body, o);
  }

  /** A `{` followed by a member list that ends the text is parsed as that list's object. */
  lemma ParseBraced(body: string, o: Object)
    requires body != [] && body[0] == '"'
    requires ParseMemberList(body) == Some((o, ""))
    ensures Parse("{" + body) == Some(o)
  {
    var text := "{" + body;
    SkipWsNoWs(text);
    assert text[1..] == body;
    SkipWsNoWs(body);
    assert SkipWs("") == [];
  }
}
