/** The JSON text the exporter embeds in its relationship columns: `JSON.stringify` of an
    array of flat objects whose values are strings. String escaping follows section 7 of
    RFC 8259 with the choices ECMAScript's `JSON.stringify` makes (two-character escapes
    where they exist, lower-case `\u00xx` for the other control characters, no whitespace).
    A decoder for that compact form is the reference the encoder is proved against. */
module Json {
  import opened Wrappers
  import opened Seqs

  // ---------------------------------------------------------------------------
  // Encoding

  function HexDigit(i: nat): (c: char)
    requires i < 16
  {
    if i < 10 then ('0' as int + i) as char else ('a' as int + i - 10) as char
  }

  /** How `JSON.stringify` writes one character inside a string literal. */
  function EscapeChar(c: char): string
  {
    if c == '"' then "\\\""
    else if c == '\\' then "\\\\"
    else if c == '\U{8}' then "\\b"
    else if c == '\U{C}' then "\\f"
    else if c == '\n' then "\\n"
    else if c == '\r' then "\\r"
    else if c == '\t' then "\\t"
    else if c < ' ' then "\\u00" + [HexDigit(c as int / 16), HexDigit(c as int % 16)]
    else [c]
  }

  function Escape(s: string): string
  {
    if s == [] then [] else EscapeChar(s[0]) + Escape(s[1..])
  }

  /** `JSON.stringify(s)` for a string `s`. */
  function Quote(s: string): string
  {
    "\"" + Escape(s) + "\""
  }

  /** One `"key":"value"` member. */
  function Member(key: string, value: string): string
  {
    Quote(key) + ":" + Quote(value)
  }

  /** `JSON.stringify` of an object whose keys, in insertion order, are `keys` and whose
      values are the strings `values`. */
  function ObjectJson(keys: seq<string>, values: seq<string>): string
    requires |keys| == |values|
  {
    "{" + Join(Members(keys, values), ",") + "}"
  }

  function Members(keys: seq<string>, values: seq<string>): seq<string>
    requires |keys| == |values|
  {
    seq(|keys|, i requires 0 <= i < |keys| => Member(keys[i], values[i]))
  }

  predicate Rectangular(keys: seq<string>, rows: seq<seq<string>>) {
    forall i :: 0 <= i < |rows| ==> |rows[i]| == |keys|
  }

  /** `JSON.stringify` of an array of such objects, all with the same keys. */
  function ArrayJson(keys: seq<string>, rows: seq<seq<string>>): (r: string)
    requires Rectangular(keys, rows)
    ensures |r| >= 2 && r[0] == '['
  {
    "[" + Join(Objects(keys, rows), ",") + "]"
  }

  function Objects(keys: seq<string>, rows: seq<seq<string>>): seq<string>
    requires Rectangular(keys, rows)
  {
    seq(|rows|, i requires 0 <= i < |rows| => ObjectJson(keys, rows[i]))
  }

  // ---------------------------------------------------------------------------
  // Decoding (the reference)

  function HexValue(c: char): (r: Option<nat>)
    ensures r.Some? ==> r.value < 16
  {
    if '0' <= c <= '9' then Some(c as int - '0' as int)
    else if 'a' <= c <= 'f' then Some(c as int - 'a' as int + 10)
    else if 'A' <= c <= 'F' then Some(c as int - 'A' as int + 10)
    else None
  }

  /** The character an escape stands for; `t` is what follows the backslash. Also says how
      many characters of `t` the escape uses. */
  function Unescape(t: string): (r: Option<(char, nat)>)
    ensures r.Some? ==> 1 <= r.value.1 <= |t|
  {
    if t == [] then None
    else if t[0] == '"' then Some(('"', 1))
    else if t[0] == '\\' then Some(('\\', 1))
    else if t[0] == '/' then Some(('/', 1))
    else if t[0] == 'b' then Some(('\U{8}', 1))
    else if t[0] == 'f' then Some(('\U{C}', 1))
    else if t[0] == 'n' then Some(('\n', 1))
    else if t[0] == 'r' then Some(('\r', 1))
    else if t[0] == 't' then Some(('\t', 1))
    else if t[0] == 'u' && |t| >= 5 then
      var h0 :- HexValue(t[1]);
      var h1 :- HexValue(t[2]);
      var h2 :- HexValue(t[3]);
      var h3 :- HexValue(t[4]);
      var v := 4096 * h0 + 256 * h1 + 16 * h2 + h3;
      // a lone surrogate is not a character of its own
      if 0xD800 <= v < 0xE000 then None else Some((v as char, 5))
    else None
  }

  /** Reads the inside of a string literal up to its closing quote; gives the text it
      stands for and what follows the closing quote. */
  function DecodeStringBody(s: string): (r: Option<(string, string)>)
    ensures r.Some? ==> |r.value.1| < |s|
    decreases |s|
  {
    if s == [] then None
    else if s[0] == '"' then Some(([], s[1..]))
    else if s[0] == '\\' then
      var e :- Unescape(s[1..]);
      var body :- DecodeStringBody(s[1 + e.1..]);
      Some(([e.0] + body.0, body.1))
    else if s[0] < ' ' then None
    else
      var body :- DecodeStringBody(s[1..]);
      Some(([s[0]] + body.0, body.1))
  }

  /** Reads one string literal at the start of `s`. */
  function DecodeString(s: string): (r: Option<(string, string)>)
    ensures r.Some? ==> |r.value.1| < |s|
  {
    if s != [] && s[0] == '"' then DecodeStringBody(s[1..]) else None
  }

  /** Consumes the literal text `lit` at the start of `s`. */
  function Expect(s: string, lit: string): (r: Option<string>)
    ensures r.Some? ==> |r.value| == |s| - |lit|
  {
    if |lit| <= |s| && s[..|lit|] == lit then Some(s[|lit|..]) else None
  }

  /** Reads the members of an object, after its `{`, whose keys must be `keys` in this order;
      `first` says no member has been read yet. */
  function DecodeMembers(s: string, keys: seq<string>, first: bool): (r: Option<(seq<string>, string)>)
    ensures r.Some? ==> |r.value.1| < |s| && |r.value.0| == |keys|
    decreases |keys|
  {
    if keys == [] then
      var rest :- Expect(s, "}");
      Some(([], rest))
    else
      var s1 :- if first then Some(s) else Expect(s, ",");
      var k :- DecodeString(s1);
      if k.0 != keys[0] then None
      else
        var s2 :- Expect(k.1, ":");
        var v :- DecodeString(s2);
        var more :- DecodeMembers(v.1, keys[1..], false);
        Some(([v.0] + more.0, more.1))
  }

  /** Reads one object with the given keys at the start of `s`. */
  function DecodeObject(s: string, keys: seq<string>): (r: Option<(seq<string>, string)>)
    ensures r.Some? ==> |r.value.1| < |s| && |r.value.0| == |keys|
  {
    var s1 :- Expect(s, "{");
    DecodeMembers(s1, keys, true)
  }

  /** Reads the elements of a non-empty array, after its `[`, up to the final `]`, which
      must end the text. */
  function DecodeElements(s: string, keys: seq<string>): (r: Option<seq<seq<string>>>)
    ensures r.Some? ==> Rectangular(keys, r.value)
    decreases |s|
  {
    var o :- DecodeObject(s, keys);
    if o.1 == "]" then Some([o.0])
    else if o.1 != [] && o.1[0] == ',' then
      var more :- DecodeElements(o.1[1..], keys);
      Some([o.0] + more)
    else None
  }

  /** Reads a whole text as an array of objects with the given keys. */
  function DecodeArray(s: string, keys: seq<string>): (r: Option<seq<seq<string>>>)
    ensures r.Some? ==> Rectangular(keys, r.value)
  {
    var s1 :- Expect(s, "[");
    if s1 == "]" then Some([]) else DecodeElements(s1, keys)
  }

  // ---------------------------------------------------------------------------
  // Round trips

  lemma HexRoundTrip(i: nat)
    requires i < 16
    ensures HexValue(HexDigit(i)) == Some(i)
  {
  }

  /** Decoding one escaped character yields that character and leaves the rest in place. */
  lemma EscapeCharDecodes(c: char, tail: string)
    ensures var d := DecodeStringBody(EscapeChar(c) + tail);
      match DecodeStringBody(tail)
      case None => d == None
      case Some(body) => d == Some(([c] + body.0, body.1))
  {
    if c == '"' || c == '\\' || c == '\U{8}' || c == '\U{C}' || c == '\n' || c == '\r' || c == '\t' {
      ShortEscapeDecodes(c, tail);
    } else if c < ' ' {
      UnicodeEscapeDecodes(c, tail);
    } else {
      var s := EscapeChar(c) + tail;
      assert s[0] == c && s[1..] == tail;
    }
  }

  /** The two-character escapes: a backslash and one letter or sign. */
  lemma ShortEscapeDecodes(c: char, tail: string)
    requires c == '"' || c == '\\' || c == '\U{8}' || c == '\U{C}' || c == '\n' || c == '\r' || c == '\t'
    ensures var d := DecodeStringBody(EscapeChar(c) + tail);
      match DecodeStringBody(tail)
      case None => d == None
      case Some(body) => d == Some(([c] + body.0, body.1))
  {
    var e := EscapeChar(c);
    var s := e + tail;
    assert |e| == 2 && e[0] == '\\';
    assert s[0] == '\\' && s[1..] == [e[1]] + tail && s[2..] == tail;
    assert Unescape(s[1..]) == Some((c, 1));
  }

  /** The other control characters: `\u00` and two hexadecimal digits. */
  lemma UnicodeEscapeDecodes(c: char, tail: string)
    requires c < ' ' && !(c == '\U{8}' || c == '\U{C}' || c == '\n' || c == '\r' || c == '\t')
    ensures var d := DecodeStringBody(EscapeChar(c) + tail);
      match DecodeStringBody(tail)
      case None => d == None
      case Some(body) => d == Some(([c] + body.0, body.1))
  {
    var s := EscapeChar(c) + tail;
    var hi, lo := c as int / 16, c as int % 16;
    HexRoundTrip(hi);
    HexRoundTrip(lo);
    assert s[0] == '\\' && s[1..] == "u00" + [HexDigit(hi), HexDigit(lo)] + tail;
    assert s[6..] == tail;
    assert Unescape(s[1..]) == Some((c, 5));
  }

  /** The decoder reads an escaped string back exactly, up to its closing quote. */
  lemma {:induction false} EscapeDecodes(s: string, tail: string)
    ensures DecodeStringBody(Escape(s) + "\"" + tail) == Some((s, tail))
    decreases |s|
  {
    if s == [] {
      assert Escape(s) + "\"" + tail == "\"" + tail;
    } else {
      EscapeDecodes(s[1..], tail);
      EscapeCharDecodes(s[0], Escape(s[1..]) + "\"" + tail);
      assert Escape(s) + "\"" + tail == EscapeChar(s[0]) + (Escape(s[1..]) + "\"" + tail);
      assert [s[0]] + s[1..] == s;
    }
  }

  /** `JSON.parse(JSON.stringify(s)) == s` for a string `s`. */
  lemma QuoteDecodes(s: string, tail: string)
    ensures DecodeString(Quote(s) + tail) == Some((s, tail))
  {
    assert (Quote(s) + tail)[1..] == Escape(s) + "\"" + tail;
    EscapeDecodes(s, tail);
  }

  lemma ExpectPrefix(lit: string, tail: string)
    ensures Expect(lit + tail, lit) == Some(tail)
  {
    assert (lit + tail)[..|lit|] == lit;
    assert (lit + tail)[|lit|..] == tail;
  }

  lemma MembersTail(keys: seq<string>, values: seq<string>)
    requires |keys| == |values| && keys != []
    ensures Members(keys[1..], values[1..]) == Members(keys, values)[1..]
  {
  }

  /** One member reads back as its value, leaving what follows it. */
  lemma MemberDecodes(key: string, value: string, tail: string)
    ensures var k := DecodeString(Member(key, value) + tail);
      && k == Some((key, ":" + Quote(value) + tail))
      && Expect(k.value.1, ":") == Some(Quote(value) + tail)
      && DecodeString(Quote(value) + tail) == Some((value, tail))
  {
    var after := Quote(value) + tail;
    MemberText(key, value, tail);
    QuoteDecodes(key, ":" + after);
    ExpectPrefix(":", after);
    QuoteDecodes(value, tail);
  }

  lemma MemberText(key: string, value: string, tail: string)
    ensures Member(key, value) + tail == Quote(key) + (":" + (Quote(value) + tail))
    ensures ":" + Quote(value) + tail == ":" + (Quote(value) + tail)
  {
  }

  /** The member list of an object reads back as its values. */
  lemma {:induction false} MembersDecode(keys: seq<string>, values: seq<string>, first: bool, tail: string)
    requires |keys| == |values|
    ensures DecodeMembers(JoinedThen(Members(keys, values), ",", first, "}" + tail), keys, first) == Some((values, tail))
    decreases |keys|
  {
    var ms := Members(keys, values);
    if keys == [] {
      ExpectPrefix("}", tail);
    } else {
      MembersTail(keys, values);
      var rest := JoinedThen(ms[1..], ",", false, "}" + tail);
      var body := Member(keys[0], values[0]) + rest;
      var text := JoinedThen(ms, ",", first, "}" + tail);
      assert text == (if first then "" else ",") + body;
      LeadingComma(text, body, first);
      MemberDecodes(keys[0], values[0], rest);
      MembersDecode(keys[1..], values[1..], false, tail);
      DecodeMembersStep(text, body, keys, first, values[0], rest, values[1..], tail);
      assert [values[0]] + values[1..] == values;
    }
  }

  /** Before every member but the first, the decoder expects a comma. */
  lemma LeadingComma(text: string, body: string, first: bool)
    requires text == (if first then "" else ",") + body
    ensures (if first then Some(text) else Expect(text, ",")) == Some(body)
  {
    if first {
      assert "" + body == body;
    } else {
      ExpectPrefix(",", body);
    }
  }

  /** One step of `DecodeMembers` on a non-empty key list, spelled out. */
  lemma DecodeMembersStep(text: string, body: string, keys: seq<string>, first: bool,
                          v: string, rest: string, more: seq<string>, tail: string)
    requires keys != []
    requires (if first then Some(text) else Expect(text, ",")) == Some(body)
    requires DecodeString(body) == Some((keys[0], ":" + Quote(v) + rest))
    requires Expect(":" + Quote(v) + rest, ":") == Some(Quote(v) + rest)
    requires DecodeString(Quote(v) + rest) == Some((v, rest))
    requires DecodeMembers(rest, keys[1..], false) == Some((more, tail))
    ensures DecodeMembers(text, keys, first) == Some(([v] + more, tail))
  {
  }

  /** An object reads back as its values. */
  lemma ObjectDecodes(keys: seq<string>, values: seq<string>, tail: string)
    requires |keys| == |values|
    ensures DecodeObject(ObjectJson(keys, values) + tail, keys) == Some((values, tail))
  {
    var ms := Members(keys, values);
    var inner := JoinedThen(ms, ",", true, "}" + tail);
    if keys != [] {
      JoinIsJoinedThen(ms, ",", "}" + tail);
    }
    assert ObjectJson(keys, values) + tail == "{" + (Join(ms, ",") + ("}" + tail));
    ExpectPrefix("{", inner);
    MembersDecode(keys, values, true, tail);
  }

  lemma ObjectsTail(keys: seq<string>, rows: seq<seq<string>>)
    requires Rectangular(keys, rows) && rows != []
    ensures Objects(keys, rows[1..]) == Objects(keys, rows)[1..]
  {
  }

  lemma {:induction false} ElementsDecode(keys: seq<string>, rows: seq<seq<string>>, first: bool)
    requires Rectangular(keys, rows) && rows != []
    ensures var text := JoinedThen(Objects(keys, rows), ",", first, "]");
      DecodeElements(if first then text else text[1..], keys) == Some(rows)
    decreases |rows|
  {
    var os := Objects(keys, rows);
    var text := JoinedThen(os, ",", first, "]");
    var rest := JoinedThen(os[1..], ",", false, "]");
    assert os[0] == ObjectJson(keys, rows[0]);
    assert text == (if first then "" else ",") + (os[0] + rest);
    DropLeadingComma(text, os[0] + rest, first);
    ObjectDecodes(keys, rows[0], rest);
    ObjectsTail(keys, rows);
    if |rows| == 1 {
      assert rest == "]";
      DecodeLastElement(os[0] + rest, rows[0], keys);
      assert [rows[0]] == rows;
    } else {
      assert rest[0] == ',';
      ElementsDecode(keys, rows[1..], false);
      DecodeElementsStep(os[0] + rest, rows[0], rest, keys, rows[1..]);
      assert [rows[0]] + rows[1..] == rows;
    }
  }

  /** The last element of an array: its object is followed by the closing bracket. */
  lemma DecodeLastElement(s: string, o: seq<string>, keys: seq<string>)
    requires DecodeObject(s, keys) == Some((o, "]"))
    ensures DecodeElements(s, keys) == Some([o])
  {
  }

  /** An element followed by a comma: the decoder goes on with the rest. */
  lemma DecodeElementsStep(s: string, o: seq<string>, rest: string, keys: seq<string>, more: seq<seq<string>>)
    requires DecodeObject(s, keys) == Some((o, rest))
    requires rest != [] && rest[0] == ',' && DecodeElements(rest[1..], keys) == Some(more)
    ensures DecodeElements(s, keys) == Some([o] + more)
  {
  }

  lemma DropLeadingComma(text: string, body: string, first: bool)
    requires text == (if first then "" else ",") + body
    ensures (if first then text else text[1..]) == body
  {
    if first {
      assert "" + body == body;
    } else {
      assert ("," + body)[1..] == body;
    }
  }

  /** `JSON.parse(JSON.stringify(rows))` gives back `rows`: the decoder reads an encoded
      array of objects back as exactly the values it was built from, in order. */
  lemma ArrayDecodes(keys: seq<string>, rows: seq<seq<string>>)
    requires Rectangular(keys, rows)
    ensures DecodeArray(ArrayJson(keys, rows), keys) == Some(rows)
  {
    var os := Objects(keys, rows);
    ExpectPrefix("[", Join(os, ",") + "]");
    assert ArrayJson(keys, rows) == "[" + (Join(os, ",") + "]");
    if rows != [] {
      JoinIsJoinedThen(os, ",", "]");
      ElementsDecode(keys, rows, true);
      assert Join(os, ",") + "]" != "]" by {
        assert |Join(os, ",")| >= |os[0]| by {
          if |os| > 1 {
            assert Join(os, ",") == os[0] + "," + Join(os[1..], ",");
          }
        }
        assert |os[0]| >= 2;
      }
    }
  }
}
