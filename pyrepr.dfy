/**
 * Python's `repr()` for the values a generated setup.py holds: `str`, `bool`,
 * `list[str]` and insertion-ordered `dict[str, V]`, plus a reader for the string
 * literals `repr()` writes, so that `repr` on `str` is shown to lose nothing.
 *
 * `repr()` of a `str` (CPython's unicode_repr) picks a double quote only when the
 * text holds a single quote and no double quote, then writes each character:
 * the quote and the backslash after a backslash, tab, line feed and carriage
 * return as `\t`, `\n`, `\r`, other non-printable characters up to U+00FF as
 * `\xhh` with lower-case hex digits, and every other character as itself.
 */
module PyRepr {
  import opened Wrappers

  /**
   * Python's `str.isprintable()` on one character. Exact for U+0000..U+00FF
   * (the C0 and C1 controls, DEL, NO-BREAK SPACE and SOFT HYPHEN are not
   * printable); every character above U+00FF counts as printable here.
   */
  predicate Printable(c: char)
  {
    var n := c as int;
    (0x20 <= n < 0x7f) || (0xa0 < n && n != 0xad)
  }

  /** A character `repr()` writes as itself between single quotes. */
  predicate Plain(c: char)
  {
    Printable(c) && c != '\'' && c != '\\'
  }

  /** The quote character `repr()` chooses for `s`. */
  function QuoteFor(s: string): char
  {
    if '\'' in s && '"' !in s then '"' else '\''
  }

  function HexDigit(d: nat): (c: char)
    requires d < 16
  {
    if d < 10 then ('0' as int + d) as char else ('a' as int + d - 10) as char
  }

  predicate IsHexDigit(c: char)
  {
    '0' <= c <= '9' || 'a' <= c <= 'f' || 'A' <= c <= 'F'
  }

  function HexValue(c: char): (d: nat)
    requires IsHexDigit(c)
    ensures d < 16
  {
    if c <= '9' then c as int - '0' as int
    else if c <= 'F' then c as int - 'A' as int + 10
    else c as int - 'a' as int + 10
  }

  /** One character as `repr()` writes it inside quotes `q`. */
  function EscapeChar(c: char, q: char): string
  {
    if c == q || c == '\\' then ['\\', c]
    else if c == '\t' then "\\t"
    else if c == '\n' then "\\n"
    else if c == '\r' then "\\r"
    else if !Printable(c) then ['\\', 'x', HexDigit(c as int / 16), HexDigit(c as int % 16)]
    else [c]
  }

  function Escape(s: string, q: char): string
  {
    if s == [] then [] else EscapeChar(s[0], q) + Escape(s[1..], q)
  }

  lemma EscapeCharIsOneLine(c: char, q: char)
    requires q == '\'' || q == '"'
    ensures '\n' !in EscapeChar(c, q)
  {
    if !(c == q || c == '\\' || c == '\t' || c == '\n' || c == '\r') && !Printable(c) {
      var n := c as int;
      var e := EscapeChar(c, q);
      assert e == ['\\', 'x', HexDigit(n / 16), HexDigit(n % 16)];
      assert e[2] != '\n' && e[3] != '\n';
    }
  }

  /** An escaped text holds no raw line feed. */
  lemma {:induction false} EscapeIsOneLine(s: string, q: char)
    requires q == '\'' || q == '"'
    ensures '\n' !in Escape(s, q)
  {
    if s != [] {
      EscapeIsOneLine(s[1..], q);
      EscapeCharIsOneLine(s[0], q);
    }
  }

  /** `repr(s)` for a Python `str`. */
  function ReprStr(s: string): string
  {
    var q := QuoteFor(s);
    [q] + Escape(s, q) + [q]
  }

  /** `repr(b)` (and `str(b)`) for a Python `bool`. */
  function ReprBool(b: bool): string
  {
    if b then "True" else "False"
  }

  /** The items of a `list[str]` as its `repr` writes them: `", ".join(map(repr, xs))`. */
  function ReprItems(xs: seq<string>): string
  {
    if xs == [] then ""
    else if |xs| == 1 then ReprStr(xs[0])
    else ReprStr(xs[0]) + ", " + ReprItems(xs[1..])
  }

  /** `repr(xs)` for a Python `list[str]`. */
  function ReprList(xs: seq<string>): string
  {
    "[" + ReprItems(xs) + "]"
  }

  /**
   * The entries of a `dict[str, V]` as its `repr` writes them, `key: value`
   * separated by `", "`, with `reprValue` giving the `repr` of one value.
   */
  function ReprEntries<V>(d: seq<(string, V)>, reprValue: V -> string): string
  {
    if d == [] then ""
    else
      var entry := ReprStr(d[0].0) + ": " + reprValue(d[0].1);
      if |d| == 1 then entry else entry + ", " + ReprEntries(d[1..], reprValue)
  }

  /** `repr(d)` for a Python `dict[str, V]` held as its pairs in insertion order. */
  function ReprDict<V>(d: seq<(string, V)>, reprValue: V -> string): string
  {
    "{" + ReprEntries(d, reprValue) + "}"
  }

  /** `repr` of a `str` is one line, whatever the text holds. */
  lemma ReprStrOneLine(s: string)
    ensures '\n' !in ReprStr(s)
  {
    EscapeIsOneLine(s, QuoteFor(s));
  }

  lemma {:induction false} ReprItemsOneLine(xs: seq<string>)
    ensures '\n' !in ReprItems(xs)
  {
    if xs != [] {
      ReprStrOneLine(xs[0]);
      if |xs| > 1 {
        ReprItemsOneLine(xs[1..]);
      }
    }
  }

  /** `repr` of a `list[str]` is one line. */
  lemma ReprListOneLine(xs: seq<string>)
    ensures '\n' !in ReprList(xs)
  {
    ReprItemsOneLine(xs);
  }

  lemma {:induction false} ReprEntriesOneLine<V>(d: seq<(string, V)>, reprValue: V -> string)
    requires forall i :: 0 <= i < |d| ==> '\n' !in reprValue(d[i].1)
    ensures '\n' !in ReprEntries(d, reprValue)
  {
    if d != [] {
      ReprStrOneLine(d[0].0);
      assert '\n' !in reprValue(d[0].1);
      if |d| > 1 {
        ReprEntriesOneLine(d[1..], reprValue);
      }
    }
  }

  /** `repr` of a `dict[str, V]` is one line when the `repr` of each of its values is. */
  lemma ReprDictOneLine<V>(d: seq<(string, V)>, reprValue: V -> string)
    requires forall i :: 0 <= i < |d| ==> '\n' !in reprValue(d[i].1)
    ensures '\n' !in ReprDict(d, reprValue)
  {
    ReprEntriesOneLine(d, reprValue);
  }

  /** Adds `c` in front of a decoded text, keeping a failure. */
  function Prepend(c: char, o: Option<string>): Option<string>
  {
    match o
    case Some(s) => Some([c] + s)
    case None => None
  }

  /**
   * The text between the quotes `q` of a Python string literal, read back.
   * Only the escapes `repr()` writes are known: `\\`, `\'`, `\"`, `\t`, `\n`,
   * `\r` and `\xhh`; any other escape, a raw quote `q` or a raw line feed fails.
   */
  function Unescape(b: string, q: char): Option<string>
    decreases |b|
  {
    if b == [] then Some([])
    else if b[0] == '\\' then
      if |b| < 2 then None
      else if b[1] == '\\' || b[1] == '\'' || b[1] == '"' then Prepend(b[1], Unescape(b[2..], q))
      else if b[1] == 't' then Prepend('\t', Unescape(b[2..], q))
      else if b[1] == 'n' then Prepend('\n', Unescape(b[2..], q))
      else if b[1] == 'r' then Prepend('\r', Unescape(b[2..], q))
      else if b[1] == 'x' && |b| >= 4 && IsHexDigit(b[2]) && IsHexDigit(b[3]) then
        Prepend((HexValue(b[2]) * 16 + HexValue(b[3])) as char, Unescape(b[4..], q))
      else None
    else if b[0] == q || b[0] == '\n' then None
    else Prepend(b[0], Unescape(b[1..], q))
  }

  /** Reads a one-line Python string literal quoted with `'` or `"`. */
  function ParseStr(lit: string): Option<string>
  {
    if |lit| >= 2 && (lit[0] == '\'' || lit[0] == '"') && lit[|lit| - 1] == lit[0]
    then Unescape(lit[1..|lit| - 1], lit[0])
    else None
  }

  lemma HexRoundTrip(d: nat)
    requires d < 16
    ensures IsHexDigit(HexDigit(d)) && HexValue(HexDigit(d)) == d
  {
  }

  /** Reading one escaped character gives that character back. */
  lemma UnescapeEscapeChar(c: char, q: char, rest: string)
    requires q == '\'' || q == '"'
    ensures Unescape(EscapeChar(c, q) + rest, q) == Prepend(c, Unescape(rest, q))
  {
    var e := EscapeChar(c, q);
    var b := e + rest;
    if c == q || c == '\\' || c == '\t' || c == '\n' || c == '\r' {
      assert |e| == 2 && b[0] == '\\' && b[2..] == rest;
    } else if !Printable(c) {
      var n := c as int;
      HexRoundTrip(n / 16);
      HexRoundTrip(n % 16);
      assert |e| == 4 && b[0] == '\\' && b[1] == 'x' && b[4..] == rest;
      assert (HexValue(b[2]) * 16 + HexValue(b[3])) as char == c;
    } else {
      assert b[0] == c && b[1..] == rest;
    }
  }

  /** Reading back an escaped text gives the original text. */
  lemma {:induction false} UnescapeEscape(s: string, q: char)
    requires q == '\'' || q == '"'
    ensures Unescape(Escape(s, q), q) == Some(s)
  {
    if s != [] {
      UnescapeEscape(s[1..], q);
      UnescapeEscapeChar(s[0], q, Escape(s[1..], q));
      assert [s[0]] + s[1..] == s;
    }
  }

  /** `repr` on `str` loses nothing: reading the literal gives the text back. */
  lemma ReprStrRoundTrip(s: string)
    ensures ParseStr(ReprStr(s)) == Some(s)
  {
    var q := QuoteFor(s);
    var r := ReprStr(s);
    assert r[1..|r| - 1] == Escape(s, q);
    UnescapeEscape(s, q);
  }

  /** Text made of plain characters is escaped to itself. */
  lemma {:induction false} EscapePlain(s: string)
    requires forall i :: 0 <= i < |s| ==> Plain(s[i])
    ensures Escape(s, '\'') == s
  {
    if s != [] {
      EscapePlain(s[1..]);
      assert [s[0]] + s[1..] == s;
    }
  }

  /** For text of plain characters, `repr` is the text between single quotes. */
  lemma ReprStrPlain(s: string)
    requires forall i :: 0 <= i < |s| ==> Plain(s[i])
    ensures ReprStr(s) == "'" + s + "'"
  {
    EscapePlain(s);
  }
}
