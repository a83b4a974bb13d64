/** The string operations the renderers rely on, as Python performs them:
    `str.join`, and the `str()` of an integer and of a list of strings that
    f-strings produce (which prints each string as its `repr()`). `Split`
    models Python's `s.split(c)`; the program does not call it, but the
    contracts use it to say what lines a text consists of. */
module Text {

  // ---------------------------------------------------------------------
  // sep.join(xs) and s.split(c)
  // ---------------------------------------------------------------------

  /** Python's `sep.join(xs)`: the pieces with `sep` between neighbours. */
  function Join(sep: string, xs: seq<string>): string
    decreases |xs|
  {
    if |xs| == 0 then ""
    else if |xs| == 1 then xs[0]
    else xs[0] + sep + Join(sep, xs[1..])
  }

  /** Python's `s.split(c)` for a one-character separator: the pieces between
      successive occurrences of `c`, so there is always at least one piece. */
  function Split(c: char, s: string): (r: seq<string>)
    ensures |r| >= 1
    ensures c !in s ==> r == [s]
    decreases |s|
  {
    if s == [] then [""]
    else
      var rest := Split(c, s[1..]);
      assert s == [s[0]] + s[1..];
      if s[0] == c then [""] + rest else [[s[0]] + rest[0]] + rest[1..]
  }

  /** A piece without the separator, followed by the separator, is split off whole. */
  lemma {:induction false} SplitPiece(c: char, x: string, rest: string)
    requires c !in x
    ensures Split(c, x + [c] + rest) == [x] + Split(c, rest)
    decreases |x|
  {
    var s := x + [c] + rest;
    if x == [] {
      assert s[0] == c && s[1..] == rest;
    } else {
      assert s[0] == x[0] && s[0] != c;
      assert s[1..] == x[1..] + [c] + rest;
      SplitPiece(c, x[1..], rest);
      assert [x[0]] + x[1..] == x;
    }
  }

  /** Splitting undoes joining, when no piece contains the separator. */
  lemma {:induction false} SplitJoin(c: char, xs: seq<string>)
    requires |xs| >= 1
    requires forall j :: 0 <= j < |xs| ==> c !in xs[j]
    ensures Split(c, Join([c], xs)) == xs
    decreases |xs|
  {
    if |xs| > 1 {
      calc {
        Split(c, Join([c], xs));
        Split(c, xs[0] + [c] + Join([c], xs[1..]));
        { SplitPiece(c, xs[0], Join([c], xs[1..])); }
        [xs[0]] + Split(c, Join([c], xs[1..]));
        { SplitJoin(c, xs[1..]); }
        [xs[0]] + xs[1..];
      }
    }
  }

  /** A character in neither the separator nor any piece is not in the join. */
  lemma {:induction false} JoinAvoids(c: char, sep: string, xs: seq<string>)
    requires c !in sep
    requires forall j :: 0 <= j < |xs| ==> c !in xs[j]
    ensures c !in Join(sep, xs)
    decreases |xs|
  {
    if |xs| > 1 {
      JoinAvoids(c, sep, xs[1..]);
    }
  }

  /** A non-empty join ends with its last piece. */
  lemma {:induction false} JoinEndsWithLast(sep: string, xs: seq<string>)
    requires |xs| >= 1
    ensures |Join(sep, xs)| >= |xs[|xs| - 1]|
    ensures Join(sep, xs)[|Join(sep, xs)| - |xs[|xs| - 1]|..] == xs[|xs| - 1]
    decreases |xs|
  {
    if |xs| > 1 {
      JoinEndsWithLast(sep, xs[1..]);
      var tail := Join(sep, xs[1..]);
      assert Join(sep, xs) == (xs[0] + sep) + tail;
    }
  }

  /** A suffix of the middle of `h + m + c` sits right before `c`. */
  lemma FramedSuffix(h: string, m: string, c: string, t: string)
    requires |t| <= |m| && m[|m| - |t|..] == t
    ensures var p := h + m + c;
      |p| >= |h| + |t| + |c|
      && p[|p| - |c| - |t| .. |p| - |c|] == t
  {
    var p := h + m + c;
    assert p[|h|..|h| + |m|] == m;
    assert p[|p| - |c| - |t| .. |p| - |c|] == m[|m| - |t|..];
  }

  /** The character of `h + m + c` right before `c` is the last one of a nonempty `m`. */
  lemma FramedLastChar(h: string, m: string, c: string)
    requires |m| >= 1
    ensures var p := h + m + c;
      |h| <= |p| - |c| - 1 < |p| && p[|p| - |c| - 1] == m[|m| - 1]
  {
  }

  // ---------------------------------------------------------------------
  // str(n) for integers, and reading a number back
  // ---------------------------------------------------------------------

  predicate IsDigit(ch: char) {
    '0' <= ch <= '9'
  }

  predicate AllDigits(s: string) {
    forall j :: 0 <= j < |s| ==> IsDigit(s[j])
  }

  function DigitChar(d: nat): (ch: char)
    requires d < 10
    ensures IsDigit(ch) && ch as int - '0' as int == d
  {
    (d + '0' as int) as char
  }

  function DigitValue(ch: char): nat
    requires IsDigit(ch)
  {
    ch as int - '0' as int
  }

  /** Python's `str(n)` for a non-negative integer: its decimal digits. */
  function NatToString(n: nat): (s: string)
    ensures |s| >= 1 && AllDigits(s)
    ensures n > 0 ==> s[0] != '0'
    ensures n < 10 ==> |s| == 1
    decreases n
  {
    if n < 10 then [DigitChar(n)] else NatToString(n / 10) + [DigitChar(n % 10)]
  }

  /** Python's `str(i)` for any integer: a minus sign before the digits of a negative one. */
  function IntToString(i: int): (s: string)
    ensures |s| >= 1 && IsDigit(s[|s| - 1])
    ensures i >= 0 <==> AllDigits(s)
  {
    if i < 0 then
      var s := "-" + NatToString(-i);
      assert !IsDigit(s[0]);
      s
    else NatToString(i)
  }

  /** The value of a string of decimal digits. */
  function ParseDigits(s: string): nat
    requires AllDigits(s)
    decreases |s|
  {
    if s == [] then 0 else ParseDigits(s[..|s| - 1]) * 10 + DigitValue(s[|s| - 1])
  }

  /** Reading the digits back gives the number they were printed from. */
  lemma {:induction false} ParseNatToString(n: nat)
    ensures ParseDigits(NatToString(n)) == n
    decreases n
  {
    if n >= 10 {
      var s := NatToString(n);
      assert s[..|s| - 1] == NatToString(n / 10);
      ParseNatToString(n / 10);
    }
  }

  /** The longest prefix of `s` made of digits. */
  function LeadingDigits(s: string): (d: string)
    ensures AllDigits(d) && d <= s
    decreases |s|
  {
    if s == [] || !IsDigit(s[0]) then "" else [s[0]] + LeadingDigits(s[1..])
  }

  /** The number a line starts with, as a reader of the printed list sees it. */
  function LeadingNumber(s: string): nat {
    ParseDigits(LeadingDigits(s))
  }

  lemma {:induction false} LeadingDigitsOf(d: string, rest: string)
    requires AllDigits(d)
    requires rest != [] && !IsDigit(rest[0])
    ensures LeadingDigits(d + rest) == d
    decreases |d|
  {
    if d != [] {
      assert (d + rest)[1..] == d[1..] + rest;
      LeadingDigitsOf(d[1..], rest);
    }
  }

  /** A line made of `str(n)` and then a non-digit starts with the number `n`. */
  lemma NumberedLine(n: nat, rest: string)
    requires rest != [] && !IsDigit(rest[0])
    ensures LeadingNumber(NatToString(n) + rest) == n
  {
    LeadingDigitsOf(NatToString(n), rest);
    ParseNatToString(n);
  }

  // ---------------------------------------------------------------------
  // repr(s) and repr(list of strings)
  // ---------------------------------------------------------------------

  function HexDigit(d: nat): char
    requires d < 16
  {
    "0123456789abcdef"[d]
  }

  predicate IsQuote(ch: char) {
    ch == '\'' || ch == '"'
  }

  /** How `repr` writes one character inside a literal delimited by `quote`. */
  function CharRepr(ch: char, quote: char): (r: string)
    requires IsQuote(quote)
    ensures '\n' !in r
  {
    if ch == '\\' then "\\\\"
    else if ch == quote then ['\\', ch]
    else if ch == '\n' then "\\n"
    else if ch == '\r' then "\\r"
    else if ch == '\t' then "\\t"
    else if ch < ' ' || ch == '\U{7F}' then "\\x" + [HexDigit(ch as int / 16), HexDigit(ch as int % 16)]
    else [ch]
  }

  function Escaped(s: string, quote: char): string
    requires IsQuote(quote)
    decreases |s|
  {
    if s == [] then "" else CharRepr(s[0], quote) + Escaped(s[1..], quote)
  }

  lemma {:induction false} EscapedHasNoNewline(s: string, quote: char)
    requires IsQuote(quote)
    ensures '\n' !in Escaped(s, quote)
    decreases |s|
  {
    if s != [] {
      EscapedHasNoNewline(s[1..], quote);
    }
  }

  /** Python's `repr(s)`: double quotes only when `s` holds a single quote and
      no double quote, otherwise single quotes. */
  function StrRepr(s: string): string {
    var quote := if '\'' in s && '"' !in s then '"' else '\'';
    [quote] + Escaped(s, quote) + [quote]
  }

  /** Python's `str(xs)` for a list of strings: `[` reprs joined by `, ` `]`. */
  function ListRepr(xs: seq<string>): string {
    "[" + Join(", ", seq(|xs|, j requires 0 <= j < |xs| => StrRepr(xs[j]))) + "]"
  }

  /** A printed list of strings is always one line: `repr` escapes every newline. */
  lemma ListReprIsOneLine(xs: seq<string>)
    ensures '\n' !in ListRepr(xs)
  {
    var reprs := seq(|xs|, j requires 0 <= j < |xs| => StrRepr(xs[j]));
    forall j | 0 <= j < |reprs|
      ensures '\n' !in reprs[j]
    {
      var s := xs[j];
      EscapedHasNoNewline(s, if '\'' in s && '"' !in s then '"' else '\'');
    }
    JoinAvoids('\n', ", ", reprs);
  }
}
