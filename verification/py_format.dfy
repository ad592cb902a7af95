/** Python's `str()` and `repr()` of a decoded JSON value.

    The open ingestion path formats whatever truthy value the `to` member
    holds into its storage key with an f-string, so a key is `str(to)`:
    the text itself for a string, the decimal numeral for an integer,
    `True` for `true`, and the `repr` of the list or dict for an array or
    an object.
 */
module PyFormat {
  import opened JsonTree

  // ---------------------------------------------------------------------
  // Integers
  // ---------------------------------------------------------------------

  predicate IsDigit(c: char) {
    '0' <= c <= '9'
  }

  function DigitChar(d: nat): (c: char)
    requires d < 10
    ensures IsDigit(c) && c as int - '0' as int == d
  {
    ('0' as int + d) as char
  }

  function DigitValue(c: char): (d: nat)
    requires IsDigit(c)
    ensures d < 10
  {
    c as int - '0' as int
  }

  /** The decimal digits of `n`, most significant first; only zero itself
      starts with the digit 0. */
  function Digits(n: nat): (r: string)
    ensures |r| > 0
    ensures forall k :: 0 <= k < |r| ==> IsDigit(r[k])
    ensures r[0] == '0' <==> n == 0
  {
    if n < 10 then [DigitChar(n)] else Digits(n / 10) + [DigitChar(n % 10)]
  }

  /** The value of a string of digits. */
  function ParseDigits(s: string): nat
    requires forall k :: 0 <= k < |s| ==> IsDigit(s[k])
  {
    if |s| == 0 then 0 else ParseDigits(s[..|s| - 1]) * 10 + DigitValue(s[|s| - 1])
  }

  lemma {:induction false} DigitsRoundTrip(n: nat)
    ensures ParseDigits(Digits(n)) == n
  {
    if n >= 10 {
      var d := Digits(n / 10);
      var s := d + [DigitChar(n % 10)];
      assert s[..|s| - 1] == d;
      DigitsRoundTrip(n / 10);
    }
  }

  /** `str(i)` for a Python `int`: a minus sign for negative numbers, then
      the digits of the magnitude. */
  function DecimalString(i: int): (r: string)
    ensures |r| > 0
    ensures r[0] == '-' <==> i < 0
  {
    if i < 0 then "-" + Digits(-i) else Digits(i)
  }

  /** A digit string without a redundant leading zero. */
  predicate IsCanonicalDigits(t: string) {
    && |t| > 0
    && (forall k :: 0 <= k < |t| ==> IsDigit(t[k]))
    && (t[0] == '0' ==> |t| == 1)
  }

  /** Reads back an integer numeral in the form `str()` writes it. */
  function ParseDecimal(s: string): Option<int> {
    if |s| > 0 && s[0] == '-' then
      var t := s[1..];
      if IsCanonicalDigits(t) && t[0] != '0' then Some(0 - ParseDigits(t) as int) else None
    else if IsCanonicalDigits(s) then Some(ParseDigits(s))
    else None
  }

  /** Every integer is recovered from its numeral, so different integers
      never render to the same text. */
  lemma DecimalRoundTrip(i: int)
    ensures ParseDecimal(DecimalString(i)) == Some(i)
  {
    if i < 0 {
      var t := Digits(-i);
      assert DecimalString(i)[1..] == t;
      DigitsRoundTrip(-i);
    } else {
      DigitsRoundTrip(i);
    }
  }

  // ---------------------------------------------------------------------
  // Strings
  // ---------------------------------------------------------------------

  predicate IsQuote(q: char) {
    q == '\'' || q == '"'
  }

  /** The quote `repr` puts around a string: a double quote only when the
      text holds a single quote and no double quote. */
  function QuoteFor(s: string): (q: char)
    ensures IsQuote(q)
    ensures q == '"' <==> '\'' in s && '"' !in s
  {
    if '\'' in s && '"' !in s then '"' else '\''
  }

  /** Characters below U+0100 that Python does not print as themselves:
      control characters, DEL, the C1 controls, the no-break space and the
      soft hyphen. */
  predicate NeedsHexEscape(c: char) {
    var n := c as int;
    n < 0x20 || (0x7f <= n <= 0xa0) || n == 0xad
  }

  function HexDigit(d: nat): (c: char)
    requires d < 16
  {
    if d < 10 then ('0' as int + d) as char else ('a' as int + d - 10) as char
  }

  function HexValue(c: char): (r: Option<nat>)
    ensures r.Some? ==> r.value < 16
  {
    if '0' <= c <= '9' then Some(c as int - '0' as int)
    else if 'a' <= c <= 'f' then Some(c as int - 'a' as int + 10)
    else None
  }

  /** How `repr` writes one character of a string quoted with `q`. */
  function EscapeChar(c: char, q: char): (r: string)
    requires IsQuote(q)
    ensures 1 <= |r| <= 4
    ensures r[0] == '\\' <==> |r| > 1
  {
    if c == q || c == '\\' then ['\\', c]
    else if c == '\t' then "\\t"
    else if c == '\n' then "\\n"
    else if c == '\r' then "\\r"
    else if NeedsHexEscape(c) then ['\\', 'x', HexDigit(c as int / 16), HexDigit(c as int % 16)]
    else [c]
  }

  function EscapeBody(s: string, q: char): string
    requires IsQuote(q)
  {
    if |s| == 0 then "" else EscapeChar(s[0], q) + EscapeBody(s[1..], q)
  }

  /** `repr(s)` for a Python `str`. */
  function Repr(s: string): (r: string)
    ensures |r| >= 2
    ensures r[0] == QuoteFor(s) && r[|r| - 1] == QuoteFor(s)
  {
    var q := QuoteFor(s);
    [q] + EscapeBody(s, q) + [q]
  }

  function Prepend(c: char, rest: Option<string>): Option<string> {
    match rest
    case Some(t) => Some([c] + t)
    case None => None
  }

  /** Reads the inside of a quoted string literal, resolving escapes. */
  function UnescapeBody(t: string): Option<string>
    decreases |t|
  {
    if |t| == 0 then Some("")
    else if t[0] != '\\' then Prepend(t[0], UnescapeBody(t[1..]))
    else if |t| < 2 then None
    else if t[1] == 't' then Prepend('\t', UnescapeBody(t[2..]))
    else if t[1] == 'n' then Prepend('\n', UnescapeBody(t[2..]))
    else if t[1] == 'r' then Prepend('\r', UnescapeBody(t[2..]))
    else if t[1] == 'x' then
      if |t| < 4 then None
      else match (HexValue(t[2]), HexValue(t[3]))
        case (Some(hi), Some(lo)) => Prepend((hi * 16 + lo) as char, UnescapeBody(t[4..]))
        case _ => None
    else Prepend(t[1], UnescapeBody(t[2..]))
  }

  /** Reads a quoted string literal written by `repr`. */
  function Unrepr(r: string): Option<string> {
    if |r| >= 2 && IsQuote(r[0]) && r[|r| - 1] == r[0] then UnescapeBody(r[1..|r| - 1])
    else None
  }

  lemma EscapeCharThenRest(c: char, q: char, rest: string)
    requires IsQuote(q)
    ensures UnescapeBody(EscapeChar(c, q) + rest) == Prepend(c, UnescapeBody(rest))
  {
  }

  lemma {:induction false} EscapeBodyRoundTrip(s: string, q: char)
    requires IsQuote(q)
    ensures UnescapeBody(EscapeBody(s, q)) == Some(s)
  {
    if |s| > 0 {
      EscapeCharThenRest(s[0], q, EscapeBody(s[1..], q));
      EscapeBodyRoundTrip(s[1..], q);
      assert [s[0]] + s[1..] == s;
    }
  }

  /** `repr` loses nothing: the string is read back from its literal, so
      two different strings never have the same `repr`. */
  lemma ReprRoundTrip(s: string)
    ensures Unrepr(Repr(s)) == Some(s)
  {
    var q := QuoteFor(s);
    var r := Repr(s);
    assert r[1..|r| - 1] == EscapeBody(s, q);
    EscapeBodyRoundTrip(s, q);
  }

  // ---------------------------------------------------------------------
  // Decoded JSON values
  // ---------------------------------------------------------------------

  /** The items of a list or dict display, separated by ", ". */
  function JoinItems(parts: seq<string>): string {
    if |parts| == 0 then ""
    else if |parts| == 1 then parts[0]
    else parts[0] + ", " + JoinItems(parts[1..])
  }

  /** `repr()` of the Python value `json.loads` produces for `v`. */
  function PyRepr(v: Json): (r: string)
    ensures |r| > 0
    ensures v.JNull? ==> r == "None"
    ensures v.JBool? ==> r == (if v.b then "True" else "False")
    ensures v.JInt? ==> r == DecimalString(v.i)
    ensures v.JStr? ==> r == Repr(v.s)
    ensures v.JArr? ==> r[0] == '[' && r[|r| - 1] == ']'
    ensures v.JObj? ==> r[0] == '{' && r[|r| - 1] == '}'
    ensures v.JArr? && v.items == [] ==> r == "[]"
    ensures v.JObj? && v.fields == [] ==> r == "{}"
  {
    match v
    case JNull => "None"
    case JBool(b) => if b then "True" else "False"
    case JInt(i) => DecimalString(i)
    case JStr(s) => Repr(s)
    case JArr(items) =>
      "[" + JoinItems(seq(|items|, k requires 0 <= k < |items| => PyRepr(items[k]))) + "]"
    case JObj(fields) =>
      "{" + JoinItems(seq(|fields|, k requires 0 <= k < |fields| =>
                            Repr(fields[k].0) + ": " + PyRepr(fields[k].1))) + "}"
  }

  /** `str()` of the Python value `json.loads` produces for `v`: a string
      is its own text, anything else is its `repr`. Only the empty string
      renders as empty text. */
  function PyStr(v: Json): (r: string)
    ensures v.JStr? ==> r == v.s
    ensures |r| == 0 <==> v == JStr("")
  {
    match v
    case JStr(s) => s
    case _ => PyRepr(v)
  }

  /** A truthy value always renders to non-empty text. */
  lemma TruthyRendersNonEmpty(v: Json)
    requires Truthy(v)
    ensures |PyStr(v)| > 0
  {
  }

  /** `str()` is not injective on decoded values: every integer renders
      like the string of its own numeral (5 and "5" alike). */
  lemma NumberAndStringRenderAlike(i: int)
    ensures PyStr(JInt(i)) == PyStr(JStr(DecimalString(i)))
  {
  }
}
