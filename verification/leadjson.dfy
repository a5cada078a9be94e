/** The stored form of a lead: `"LEAD: " + JSON.stringify(merged)` (server.js:144-146), and
    its reading back, `JSON.parse(content.replace("LEAD:", "").trim())` with a failed parse
    leaving the all-null lead (server.js:130-134). */
module LeadJson {
  import opened Strings
  import opened Leads

  // ---------------------------------------------------------------------------------------
  // JSON.stringify of { name, email, phone }
  // ---------------------------------------------------------------------------------------

  function HexDigit(n: nat): char
    requires n < 16
  {
    "0123456789abcdef"[n]
  }

  /** How JSON.stringify writes one character of a string: the two-character escapes, then
      `\u00xx` (lower-case hex) for the remaining control characters, else the character. */
  function EscapeChar(c: char): string {
    if c == '"' then "\\\""
    else if c == '\\' then "\\\\"
    else if c == '\U{8}' then "\\b"
    else if c == '\U{C}' then "\\f"
    else if c == '\n' then "\\n"
    else if c == '\r' then "\\r"
    else if c == '\t' then "\\t"
    else if c < ' ' then "\\u00" + [HexDigit(c as int / 16), HexDigit(c as int % 16)]
    else [c]
  }

  function Escape(s: string): string {
    if s == [] then [] else EscapeChar(s[0]) + Escape(s[1..])
  }

  /** A string-or-null value as JSON.stringify writes it. */
  function EncodeValue(v: Option<string>): string {
    match v
    case None => "null"
    case Some(s) => "\"" + Escape(s) + "\""
  }

  /** `JSON.stringify(merged)`, keys in the order of the object literal (written as the
      first key followed by the rest, which is how the parser reads it). The text is one
      object: it opens with '{' and closes with '}'. */
  function Encode(l: Lead): (r: string)
    ensures |r| >= 2 && r[0] == '{' && r[|r| - 1] == '}'
  {
    var tail := EncodeValue(l.phone) + "}";
    var r := "{\"name\":" + (EncodeValue(l.name) + (",\"email\":" + (EncodeValue(l.email)
      + (",\"phone\":" + tail))));
    assert r[|r| - 1] == tail[|tail| - 1];
    r
  }

  // ---------------------------------------------------------------------------------------
  // JSON.parse, for the texts the encoder produces
  // ---------------------------------------------------------------------------------------

  function HexValue(c: char): Option<nat> {
    if '0' <= c <= '9' then Some(c as int - '0' as int)
    else if 'a' <= c <= 'f' then Some(c as int - 'a' as int + 10)
    else if 'A' <= c <= 'F' then Some(c as int - 'A' as int + 10)
    else None
  }

  /** The code unit written by four hex digits. */
  function Hex4(t: string): (r: Option<nat>)
    requires |t| == 4
    ensures r.Some? ==> r.value < 0x10000
  {
    var a :- HexValue(t[0]);
    var b :- HexValue(t[1]);
    var c :- HexValue(t[2]);
    var d :- HexValue(t[3]);
    if a < 16 && b < 16 && c < 16 && d < 16 then Some(((a * 16 + b) * 16 + c) * 16 + d) else None
  }

  /** The character a two-character escape `\e` stands for. */
  function SimpleEscape(e: char): Option<char> {
    if e == '"' then Some('"')
    else if e == '\\' then Some('\\')
    else if e == '/' then Some('/')
    else if e == 'b' then Some('\U{8}')
    else if e == 'f' then Some('\U{C}')
    else if e == 'n' then Some('\n')
    else if e == 'r' then Some('\r')
    else if e == 't' then Some('\t')
    else None
  }

  /** The body of a JSON string, read from just after its opening quote: its value and the
      text after the closing quote. A raw control character, an unknown escape or a missing
      closing quote is a syntax error. */
  function ParseString(t: string): (r: Option<(string, string)>)
    ensures r.Some? ==> |r.value.1| < |t|
    decreases |t|
  {
    if t == [] then None
    else if t[0] == '"' then Some(([], t[1..]))
    else if t[0] < ' ' then None
    else if t[0] != '\\' then
      var x :- ParseString(t[1..]);
      Some(([t[0]] + x.0, x.1))
    else if |t| < 2 then None
    else if t[1] == 'u' then
      if |t| < 6 then None
      else
        var n :- Hex4(t[2..6]);
        if 0xD800 <= n < 0xE000 then None
        else
          var x :- ParseString(t[6..]);
          Some(([n as char] + x.0, x.1))
    else
      var c :- SimpleEscape(t[1]);
      var x :- ParseString(t[2..]);
      Some(([c] + x.0, x.1))
  }

  /** `null` or a JSON string, and the text after it. */
  function ParseValue(t: string): Option<(Option<string>, string)> {
    if StartsWith(t, "null") then Some((None, t[4..]))
    else if t != [] && t[0] == '"' then
      var x :- ParseString(t[1..]);
      Some((Some(x.0), x.1))
    else None
  }

  /** The text after a fixed prefix w. */
  function Expect(t: string, w: string): Option<string> {
    if StartsWith(t, w) then Some(t[|w|..]) else None
  }

  /** `JSON.parse` of a lead object as the encoder writes it; None for any other text, in
      particular for any text that does not open with the `name` key. */
  function Parse(t: string): (r: Option<Lead>)
    ensures r.Some? ==> StartsWith(t, "{\"name\":")
  {
    var a :- Expect(t, "{\"name\":");
    var n :- ParseValue(a);
    var b :- Expect(n.1, ",\"email\":");
    var e :- ParseValue(b);
    var c :- Expect(e.1, ",\"phone\":");
    var p :- ParseValue(c);
    if p.1 == "}" then Some(Lead(n.0, e.0, p.0)) else None
  }

  // ---------------------------------------------------------------------------------------
  // Round trip
  // ---------------------------------------------------------------------------------------

  /** Reading one escaped character back yields the character. */
  lemma ParseEscapeChar(c: char, t: string)
    ensures ParseString(EscapeChar(c) + t) == (match ParseString(t) case None => None case Some(x) => Some(([c] + x.0, x.1)))
  {
    var u := EscapeChar(c) + t;
    if c == '"' || c == '\\' || c == '\U{8}' || c == '\U{C}' || c == '\n' || c == '\r' || c == '\t' {
      assert u[0] == '\\' && u[1] != 'u' && SimpleEscape(u[1]) == Some(c) && u[2..] == t;
    } else if c < ' ' {
      ParseControlEscape(c, t);
    } else {
      assert u[0] == c && u[1..] == t;
    }
  }

  /** A control character without a two-character escape comes back from its `\u00xx` form. */
  lemma ParseControlEscape(c: char, t: string)
    requires c < ' '
    ensures ParseString("\\u00" + [HexDigit(c as int / 16), HexDigit(c as int % 16)] + t)
         == (match ParseString(t) case None => None case Some(x) => Some(([c] + x.0, x.1)))
  {
    var hi := c as int / 16;
    var lo := c as int % 16;
    var u := "\\u00" + [HexDigit(hi), HexDigit(lo)] + t;
    assert u[0] == '\\' && u[1] == 'u' && u[6..] == t;
    assert u[2..6] == ['0', '0', HexDigit(hi), HexDigit(lo)];
    assert HexValue(HexDigit(hi)) == Some(hi) && HexValue(HexDigit(lo)) == Some(lo);
    assert Hex4(u[2..6]) == Some(c as int);
  }

  /** Reading an escaped string back, up to its closing quote, yields the string and leaves
      what follows. */
  lemma {:induction false} ParseEscape(s: string, rest: string)
    ensures ParseString(Escape(s) + "\"" + rest) == Some((s, rest))
    decreases |s|
  {
    if s == [] {
      assert Escape(s) + "\"" + rest == "\"" + rest;
    } else {
      assert Escape(s) + "\"" + rest == EscapeChar(s[0]) + (Escape(s[1..]) + "\"" + rest);
      ParseEscape(s[1..], rest);
      ParseEscapeChar(s[0], Escape(s[1..]) + "\"" + rest);
      assert [s[0]] + s[1..] == s;
    }
  }

  lemma ParseEncodedValue(v: Option<string>, rest: string)
    ensures ParseValue(EncodeValue(v) + rest) == Some((v, rest))
  {
    match v
    case None =>
      assert ("null" + rest)[4..] == rest;
    case Some(s) =>
      var body := Escape(s) + "\"" + rest;
      assert EncodeValue(v) + rest == "\"" + body;
      ExpectPrefix("\"", body);
      ParseEscape(s, rest);
  }

  /** Reading a fixed prefix off w + t leaves t. */
  lemma ExpectPrefix(w: string, t: string)
    ensures Expect(w + t, w) == Some(t)
  {
    assert (w + t)[..|w|] == w && (w + t)[|w|..] == t;
  }

  /** `JSON.parse(JSON.stringify(l))` gives back l. */
  lemma ParseEncode(l: Lead)
    ensures Parse(Encode(l)) == Some(l)
  {
    var t3 := EncodeValue(l.phone) + "}";
    var t2 := ",\"phone\":" + t3;
    var t1 := EncodeValue(l.email) + t2;
    var t0 := ",\"email\":" + t1;
    ExpectPrefix("{\"name\":", EncodeValue(l.name) + t0);
    ParseEncodedValue(l.name, t0);
    ExpectPrefix(",\"email\":", t1);
    ParseEncodedValue(l.email, t2);
    ExpectPrefix(",\"phone\":", t3);
    ParseEncodedValue(l.phone, "}");
  }

  // ---------------------------------------------------------------------------------------
  // The LEAD system message
  // ---------------------------------------------------------------------------------------

  const LeadTag := "LEAD:"

  /** `"LEAD: " + JSON.stringify(merged)`. */
  function LeadContent(l: Lead): string {
    LeadTag + (" " + Encode(l))
  }

  /** The stored lead read back from a LEAD message: the first "LEAD:" removed, the rest
      trimmed and parsed; a parse failure leaves the all-null lead. */
  function DecodeLead(content: string): Lead {
    match Parse(Trim(RemoveFirst(content, LeadTag)))
    case None => EmptyLead
    case Some(l) => l
  }

  /** What is left of a LEAD message once its tag is removed and it is trimmed. */
  lemma LeadPayload(w: string)
    requires w != [] && !IsSpace(w[0]) && !IsSpace(w[|w| - 1])
    ensures Trim(RemoveFirst(LeadTag + (" " + w), LeadTag)) == w
  {
    var c := LeadTag + (" " + w);
    ExpectPrefix(LeadTag, " " + w);
    RemoveFirstAtStart(c, LeadTag);
    var u := " " + w;
    assert u[1..|u|] == w;
    TrimExact(u, 1, |u|);
  }

  /** What the handler writes, it reads back unchanged. */
  lemma DecodeLeadContent(l: Lead)
    ensures DecodeLead(LeadContent(l)) == l
  {
    LeadPayload(Encode(l));
    ParseEncode(l);
  }

  /** What the handler writes is recognised as a LEAD message. */
  lemma LeadContentTagged(l: Lead)
    ensures StartsWith(LeadContent(l), LeadTag)
  {
    ExpectPrefix(LeadTag, " " + Encode(l));
  }

  /** A LEAD message whose payload does not parse counts as the all-null lead. */
  lemma DecodeGarbage(w: string)
    requires w != [] && !IsSpace(w[0]) && !IsSpace(w[|w| - 1]) && Parse(w).None?
    ensures DecodeLead(LeadTag + (" " + w)) == EmptyLead
  {
    LeadPayload(w);
  }

  /** Such payloads exist: `{oops}` is one. */
  lemma DecodeOops()
    ensures DecodeLead(LeadTag + (" " + "{oops}")) == EmptyLead
  {
    assert Parse("{oops}") == None;
    DecodeGarbage("{oops}");
  }
}
