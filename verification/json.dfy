/**
 * The JSON text `encoding/json.Marshal` produces for the values the service
 * marshals: strings (with Go's escaping, HTML-safe, as in Go releases before
 * 1.22), the error body, the wallet body and a transfer's meta object; and a
 * reader for JSON string literals (RFC 8259, section 7) that undoes the
 * escaping.
 */
module Json {
  import opened Wrappers
  import opened Decimal

  function HexDigit(n: int): (c: char)
    requires 0 <= n < 16
  {
    "0123456789abcdef"[n]
  }

  function HexValue(c: char): (r: Option<int>)
    ensures r.Some? ==> 0 <= r.value < 16
  {
    if '0' <= c <= '9' then Some(c as int - '0' as int)
    else if 'a' <= c <= 'f' then Some(c as int - 'a' as int + 10)
    else if 'A' <= c <= 'F' then Some(c as int - 'A' as int + 10)
    else None
  }

  /** Characters copied verbatim inside a JSON string by Go's HTML-safe encoder. */
  predicate IsSafe(c: char) {
    ' ' <= c && c != '"' && c != '\\' && c != '<' && c != '>' && c != '&' &&
    c != '\U{2028}' && c != '\U{2029}'
  }

  /** The escape Go's encoder writes for one character. */
  function EscapeChar(c: char): (s: string)
    ensures IsSafe(c) <==> s == [c]
    ensures !IsSafe(c) ==> |s| >= 2 && s[0] == '\\'
  {
    if IsSafe(c) then [c]
    else if c == '"' then "\\\""
    else if c == '\\' then "\\\\"
    else if c == '\n' then "\\n"
    else if c == '\r' then "\\r"
    else if c == '\t' then "\\t"
    else if c < ' ' || c == '<' || c == '>' || c == '&' then
      "\\u00" + [HexDigit(c as int / 16), HexDigit(c as int % 16)]
    else
      "\\u202" + [HexDigit(c as int % 16)]
  }

  function Escape(s: string): (r: string)
    ensures |r| >= |s|
  {
    if s == [] then [] else EscapeChar(s[0]) + Escape(s[1..])
  }

  /** `json.Marshal` of a Go string. */
  function Quote(s: string): (r: string)
    ensures |r| >= |s| + 2 && r[0] == '"' && r[|r| - 1] == '"'
  {
    "\"" + Escape(s) + "\""
  }

  /** The body `HandlerError` writes: `{"ok":0,"message":...}`. */
  function ErrorBody(message: string): string {
    "{\"ok\":0,\"message\":" + Quote(message) + "}"
  }

  /** The body of a wallet-balance reply: `{"name":...,"balance":...}`. */
  function WalletBody(name: string, balance: int): string {
    "{\"name\":" + Quote(name) + ",\"balance\":" + FormatInt(balance) + "}"
  }

  /** A JSON object whose members are all strings, in the order given. */
  function ObjectText(entries: seq<(string, string)>): string {
    "{" + Members(entries) + "}"
  }

  function Members(entries: seq<(string, string)>): string {
    if entries == [] then ""
    else
      Quote(entries[0].0) + ":" + Quote(entries[0].1) +
      (if |entries| == 1 then "" else "," + Members(entries[1..]))
  }

  lemma {:induction false} EscapeSafe(s: string)
    requires forall i :: 0 <= i < |s| ==> IsSafe(s[i])
    ensures Escape(s) == s
  {
    if s != [] {
      EscapeSafe(s[1..]);
    }
  }

  function Prepend(c: char, r: Option<string>): Option<string> {
    if r.Some? then Some([c] + r.value) else None
  }

  /**
   * Reads the characters between the quotes of a JSON string literal:
   * unescaped '"' and control characters are refused; `\uXXXX` escapes that
   * name a surrogate (which would need a pair) are refused too.
   */
  function Unescape(s: string): (r: Option<string>)
    decreases |s|
  {
    if s == [] then Some([])
    else if s[0] == '"' || s[0] < ' ' then None
    else if s[0] != '\\' then Prepend(s[0], Unescape(s[1..]))
    else if |s| < 2 then None
    else if s[1] == '"' || s[1] == '\\' || s[1] == '/' then Prepend(s[1], Unescape(s[2..]))
    else if s[1] == 'b' then Prepend('\U{0008}', Unescape(s[2..]))
    else if s[1] == 'f' then Prepend('\U{000C}', Unescape(s[2..]))
    else if s[1] == 'n' then Prepend('\n', Unescape(s[2..]))
    else if s[1] == 'r' then Prepend('\r', Unescape(s[2..]))
    else if s[1] == 't' then Prepend('\t', Unescape(s[2..]))
    else if s[1] == 'u' && |s| >= 6 then
      var h := [HexValue(s[2]), HexValue(s[3]), HexValue(s[4]), HexValue(s[5])];
      if h[0].Some? && h[1].Some? && h[2].Some? && h[3].Some? then
        var v := h[0].value * 4096 + h[1].value * 256 + h[2].value * 16 + h[3].value;
        if 0xD800 <= v < 0xE000 then None else Prepend(v as char, Unescape(s[6..]))
      else None
    else None
  }

  lemma HexRoundTrip(n: int)
    requires 0 <= n < 16
    ensures HexValue(HexDigit(n)) == Some(n)
  {
  }

  lemma UnescapeSafe(c: char, rest: string)
    requires IsSafe(c)
    ensures Unescape([c] + rest) == Prepend(c, Unescape(rest))
  {
    assert ([c] + rest)[1..] == rest;
  }

  lemma UnescapeShort(e: char, c: char, rest: string)
    requires (e, c) in {('"', '"'), ('\\', '\\'), ('n', '\n'), ('r', '\r'), ('t', '\t')}
    ensures Unescape(['\\', e] + rest) == Prepend(c, Unescape(rest))
  {
    assert (['\\', e] + rest)[2..] == rest;
  }

  lemma UnescapeHex(a: int, b: int, x: int, y: int, rest: string)
    requires 0 <= a < 16 && 0 <= b < 16 && 0 <= x < 16 && 0 <= y < 16
    requires var v := a * 4096 + b * 256 + x * 16 + y; v < 0xD800 || 0xE000 <= v
    ensures var v := a * 4096 + b * 256 + x * 16 + y;
      Unescape(['\\', 'u', HexDigit(a), HexDigit(b), HexDigit(x), HexDigit(y)] + rest) ==
      Prepend(v as char, Unescape(rest))
  {
    var s := ['\\', 'u', HexDigit(a), HexDigit(b), HexDigit(x), HexDigit(y)] + rest;
    HexRoundTrip(a);
    HexRoundTrip(b);
    HexRoundTrip(x);
    HexRoundTrip(y);
    assert s[2] == HexDigit(a) && s[3] == HexDigit(b) && s[4] == HexDigit(x) && s[5] == HexDigit(y);
    assert s[6..] == rest;
  }

  lemma UnescapeEscapeChar(c: char, rest: string)
    ensures Unescape(EscapeChar(c) + rest) == Prepend(c, Unescape(rest))
  {
    if IsSafe(c) {
      UnescapeSafe(c, rest);
    } else if c == '"' {
      UnescapeShort('"', c, rest);
    } else if c == '\\' {
      UnescapeShort('\\', c, rest);
    } else if c == '\n' {
      UnescapeShort('n', c, rest);
    } else if c == '\r' {
      UnescapeShort('r', c, rest);
    } else if c == '\t' {
      UnescapeShort('t', c, rest);
    } else if c < ' ' || c == '<' || c == '>' || c == '&' {
      UnescapeHex(0, 0, c as int / 16, c as int % 16, rest);
      assert "\\u00" + [HexDigit(c as int / 16), HexDigit(c as int % 16)] ==
        ['\\', 'u', HexDigit(0), HexDigit(0), HexDigit(c as int / 16), HexDigit(c as int % 16)];
    } else {
      UnescapeHex(2, 0, 2, c as int % 16, rest);
      assert "\\u202" + [HexDigit(c as int % 16)] ==
        ['\\', 'u', HexDigit(2), HexDigit(0), HexDigit(2), HexDigit(c as int % 16)];
    }
  }

  /** Go's escaping loses nothing: the reader recovers the original string. */
  lemma {:induction false} UnescapeEscape(s: string)
    ensures Unescape(Escape(s)) == Some(s)
  {
    if s != [] {
      UnescapeEscape(s[1..]);
      UnescapeEscapeChar(s[0], Escape(s[1..]));
      assert [s[0]] + s[1..] == s;
    }
  }

  /** A message made of safe characters appears verbatim between the quotes of the body. */
  lemma ErrorBodyOfSafeMessage(message: string)
    requires forall i :: 0 <= i < |message| ==> IsSafe(message[i])
    ensures ErrorBody(message) == "{\"ok\":0,\"message\":\"" + message + "\"}"
  {
    EscapeSafe(message);
  }
}
