/** The Python `str` operations the backend relies on, each with Python's own semantics:
    `find`, `rfind`, `count`, `in`, `strip`, `replace` of one character, `splitlines`,
    `join` and `split`, together with `repr` of a str and the UTF-8 length Linux sees of a path. */
module PyStr {

  /** `c.isspace()`: the characters Python treats as whitespace, which `str.strip()` removes. */
  predicate IsSpace(c: char) {
    var n := c as int;
    (9 <= n <= 13) || (28 <= n <= 32) || n == 0x85 || n == 0xA0 || n == 0x1680
    || (0x2000 <= n <= 0x200A) || n == 0x2028 || n == 0x2029 || n == 0x202F
    || n == 0x205F || n == 0x3000
  }

  /** The characters at which `str.splitlines()` ends a line ("\r\n" counts as one break). */
  predicate IsLineBreak(c: char) {
    var n := c as int;
    (10 <= n <= 13) || (28 <= n <= 30) || n == 0x85 || n == 0x2028 || n == 0x2029
  }

  /** Every character is whitespace (so `not s.strip()`). */
  predicate IsBlank(s: string) {
    forall k :: 0 <= k < |s| ==> IsSpace(s[k])
  }

  predicate NoLineBreak(s: string) {
    forall k :: 0 <= k < |s| ==> !IsLineBreak(s[k])
  }

  /** `pat` occurs in `s` at index `i`. */
  predicate StartsAt(s: string, pat: string, i: int) {
    0 <= i && i + |pat| <= |s| && s[i..i + |pat|] == pat
  }

  /** `pat` occurs nowhere in `s`. */
  predicate Absent(s: string, pat: string) {
    forall k :: 0 <= k <= |s| ==> !StartsAt(s, pat, k)
  }

  /** `s.find(pat, start)`: the leftmost occurrence at or after `start`, or -1. */
  function FindFrom(s: string, pat: string, start: nat): (r: int)
    requires start <= |s|
    ensures r == -1 || (start <= r && StartsAt(s, pat, r))
    ensures forall k :: start <= k && (r == -1 || k < r) ==> !StartsAt(s, pat, k)
    decreases |s| - start
  {
    if start + |pat| > |s| then -1
    else if s[start..start + |pat|] == pat then start
    else FindFrom(s, pat, start + 1)
  }

  /** `s.find(pat)` */
  function Find(s: string, pat: string): int {
    FindFrom(s, pat, 0)
  }

  /** `pat in s` */
  predicate Contains(s: string, pat: string) {
    Find(s, pat) != -1
  }

  lemma ContainsIffOccurs(s: string, pat: string)
    ensures Contains(s, pat) <==> !Absent(s, pat)
  {
    if Contains(s, pat) {
      assert StartsAt(s, pat, Find(s, pat));
    }
  }

  /** `s.rfind(c)` for a one-character pattern: the rightmost index of `c`, or -1. */
  function RFind(s: string, c: char): (r: int)
    ensures -1 <= r < |s|
    ensures r >= 0 ==> s[r] == c
    ensures forall k :: r < k < |s| ==> s[k] != c
  {
    if |s| == 0 then -1
    else if s[|s| - 1] == c then |s| - 1
    else RFind(s[..|s| - 1], c)
  }

  /** `s.count(pat, start)`: find the leftmost occurrence, count it, and go on after it, so
      occurrences never overlap. An empty pattern is counted at every index. */
  function CountFrom(s: string, pat: string, start: nat): (n: nat)
    requires start <= |s|
    ensures n > 0 <==> FindFrom(s, pat, start) != -1
    decreases |s| - start
  {
    if |pat| == 0 then |s| - start + 1
    else
      var f := FindFrom(s, pat, start);
      if f == -1 then 0
      else
        assert StartsAt(s, pat, f);
        1 + CountFrom(s, pat, f + |pat|)
  }

  /** `s.count(pat)` */
  function Count(s: string, pat: string): nat {
    CountFrom(s, pat, 0)
  }

  /** A count of one means that no occurrence starts after the end of the first. */
  lemma CountOneNoLaterOccurrence(s: string, pat: string)
    requires |pat| > 0 && Count(s, pat) == 1
    ensures Find(s, pat) != -1
    ensures forall k :: Find(s, pat) + |pat| <= k ==> !StartsAt(s, pat, k)
  {
    var f := Find(s, pat);
    assert StartsAt(s, pat, f);
    assert CountFrom(s, pat, f + |pat|) == 0;
  }

  /** Number of leading whitespace characters. */
  function LeadingSpace(s: string): (n: nat)
    ensures n <= |s|
    ensures forall k :: 0 <= k < n ==> IsSpace(s[k])
    ensures n < |s| ==> !IsSpace(s[n])
  {
    if |s| == 0 || !IsSpace(s[0]) then 0 else 1 + LeadingSpace(s[1..])
  }

  /** Index after the last non-whitespace character (0 if there is none). */
  function TrailingStart(s: string): (n: nat)
    ensures n <= |s|
    ensures forall k :: n <= k < |s| ==> IsSpace(s[k])
    ensures n > 0 ==> !IsSpace(s[n - 1])
  {
    if |s| == 0 || !IsSpace(s[|s| - 1]) then |s| else TrailingStart(s[..|s| - 1])
  }

  /** `s.strip()`: the slice of `s` that remains once the whitespace at both ends is gone. */
  function Strip(s: string): (r: string)
    ensures LeadingSpace(s) + |r| <= |s| && r == s[LeadingSpace(s)..LeadingSpace(s) + |r|]
    ensures forall k :: 0 <= k < |s| && !(LeadingSpace(s) <= k < LeadingSpace(s) + |r|) ==> IsSpace(s[k])
    ensures r == [] || (!IsSpace(r[0]) && !IsSpace(r[|r| - 1]))
    ensures r == [] <==> IsBlank(s)
  {
    var a := LeadingSpace(s);
    var t := s[a..];
    t[..TrailingStart(t)]
  }

  /** `s.replace(x, y)` for one-character `x` and `y`. */
  function ReplaceChar(s: string, x: char, y: char): (r: string)
    ensures |r| == |s|
    ensures forall k :: 0 <= k < |s| ==> r[k] == (if s[k] == x then y else s[k])
  {
    if |s| == 0 then s
    else [if s[0] == x then y else s[0]] + ReplaceChar(s[1..], x, y)
  }

  /** `splitlines()` of `s`, where `line` is the part of the current line already read. */
  function SplitLinesFrom(s: string, line: string): (ls: seq<string>)
    requires NoLineBreak(line)
    ensures forall i :: 0 <= i < |ls| ==> NoLineBreak(ls[i])
    ensures |s| > 0 ==> |ls| > 0
    decreases |s|
  {
    if |s| == 0 then (if |line| == 0 then [] else [line])
    else if s[0] == '\r' && |s| > 1 && s[1] == '\n' then [line] + SplitLinesFrom(s[2..], "")
    else if IsLineBreak(s[0]) then [line] + SplitLinesFrom(s[1..], "")
    else SplitLinesFrom(s[1..], line + [s[0]])
  }

  /** `s.splitlines()`: the lines without their breaks; a final break opens no further line. */
  function SplitLines(s: string): seq<string> {
    SplitLinesFrom(s, "")
  }

  /** `sep.join(xs)` */
  function Join(xs: seq<string>, sep: string): string {
    if |xs| == 0 then ""
    else if |xs| == 1 then xs[0]
    else xs[0] + sep + Join(xs[1..], sep)
  }

  /** `s.split(sep)` for a non-empty separator. */
  function Split(s: string, sep: string): (parts: seq<string>)
    requires |sep| > 0
    ensures |parts| > 0
    decreases |s|
  {
    var k := Find(s, sep);
    if k == -1 then [s] else [s[..k]] + Split(s[k + |sep|..], sep)
  }

  /** Joining keeps the order of the parts: one more part lands after one more separator. */
  lemma {:induction false} JoinAppend(xs: seq<string>, x: string, sep: string)
    requires |xs| > 0
    ensures Join(xs + [x], sep) == Join(xs, sep) + sep + x
  {
    if |xs| == 1 {
      assert xs + [x] == [xs[0], x];
      assert Join([x], sep) == x;
    } else {
      assert (xs + [x])[1..] == xs[1..] + [x];
      JoinAppend(xs[1..], x, sep);
    }
  }

  /** When `a` cannot start the separator, the first separator in `a + sep + b` is the one after `a`. */
  lemma FindSeparator(a: string, sep: string, b: string)
    requires |sep| > 0
    requires forall k :: 0 <= k < |a| ==> a[k] != sep[0]
    ensures Find(a + sep + b, sep) == |a|
  {
    var s := a + sep + b;
    assert s[|a|..|a| + |sep|] == sep;
    assert StartsAt(s, sep, |a|);
    forall k | 0 <= k < |a| ensures !StartsAt(s, sep, k) {
      assert s[k] == a[k];
    }
  }

  /** A string that cannot start the separator holds no separator. */
  lemma FindNoSeparator(a: string, sep: string)
    requires |sep| > 0
    requires forall k :: 0 <= k < |a| ==> a[k] != sep[0]
    ensures Find(a, sep) == -1
  {
    forall k | 0 <= k <= |a| ensures !StartsAt(a, sep, k) {
      if k + |sep| <= |a| {
        assert a[k..k + |sep|][0] == a[k];
      }
    }
  }

  /** `sep.join` and `split(sep)` are inverse when no part holds the separator's first character. */
  lemma {:induction false} SplitJoin(xs: seq<string>, sep: string)
    requires |xs| > 0 && |sep| > 0
    requires forall i, k :: 0 <= i < |xs| && 0 <= k < |xs[i]| ==> xs[i][k] != sep[0]
    ensures Split(Join(xs, sep), sep) == xs
  {
    if |xs| == 1 {
      FindNoSeparator(xs[0], sep);
    } else {
      var rest := Join(xs[1..], sep);
      assert Join(xs, sep) == xs[0] + sep + rest;
      SplitAtFirst(xs[0], sep, rest);
      SplitJoin(xs[1..], sep);
      assert xs == [xs[0]] + xs[1..];
    }
  }

  /** Splitting `a + sep + rest` gives `a` first when `a` cannot start the separator. */
  lemma SplitAtFirst(a: string, sep: string, rest: string)
    requires |sep| > 0
    requires forall k :: 0 <= k < |a| ==> a[k] != sep[0]
    ensures Split(a + sep + rest, sep) == [a] + Split(rest, sep)
  {
    var s := a + sep + rest;
    FindSeparator(a, sep, rest);
    assert s[..|a|] == a;
    assert s[|a| + |sep|..] == rest;
  }

  /** Reading on from a partial line `line`, the lines re-joined with "\n" give back `line + s`,
      provided "\n" is the only break in `s` and `s` does not end in one. */
  lemma {:induction false} SplitLinesFromJoin(s: string, line: string)
    requires NoLineBreak(line)
    requires forall k :: 0 <= k < |s| && IsLineBreak(s[k]) ==> s[k] == '\n'
    requires |s| == 0 || s[|s| - 1] != '\n'
    ensures Join(SplitLinesFrom(s, line), "\n") == line + s
    decreases |s|
  {
    if |s| == 0 {
    } else if IsLineBreak(s[0]) {
      assert s[0] == '\n';
      var rest := SplitLinesFrom(s[1..], "");
      assert |rest| > 0;
      SplitLinesFromJoin(s[1..], "");
      assert Join([line] + rest, "\n") == line + "\n" + Join(rest, "\n");
      assert s == "\n" + s[1..];
    } else {
      SplitLinesFromJoin(s[1..], line + [s[0]]);
      assert line + [s[0]] + s[1..] == line + s;
    }
  }

  /** `"\n".join(s.splitlines()) == s` when "\n" is the only line break and `s` does not end in one. */
  lemma SplitLinesJoin(s: string)
    requires forall k :: 0 <= k < |s| && IsLineBreak(s[k]) ==> s[k] == '\n'
    requires |s| == 0 || s[|s| - 1] != '\n'
    ensures Join(SplitLines(s), "\n") == s
  {
    SplitLinesFromJoin(s, "");
  }

  // ---------------------------------------------------------------------------------------
  // repr of a str

  /** The quote `repr(s)` puts around `s`: a double quote when `s` holds a single quote and no
      double quote, a single quote otherwise. */
  function ReprQuote(s: string): char {
    if '\'' in s && '"' !in s then '"' else '\''
  }

  /** A lower-case hexadecimal digit for `0 <= d < 16`. */
  function HexDigit(d: nat): char
    requires d < 16
  {
    if d < 10 then ('0' as int + d) as char else ('a' as int + d - 10) as char
  }

  /** The value of a lower-case hexadecimal digit (0 for any other character). */
  function HexValue(c: char): (v: nat)
    ensures v < 16
  {
    if '0' <= c <= '9' then c as int - '0' as int
    else if 'a' <= c <= 'f' then c as int - 'a' as int + 10
    else 0
  }

  /** How `repr` writes one character inside the quotes `q`: the quote and the backslash get a
      backslash, tab, newline and carriage return their letter escapes, the other ASCII control
      characters a `\x` escape; every other character stands for itself. */
  function EscapeChar(c: char, q: char): string {
    if c == q || c == '\\' then ['\\', c]
    else if c == '\t' then "\\t"
    else if c == '\n' then "\\n"
    else if c == '\r' then "\\r"
    else if c as int < 0x20 || c as int == 0x7F then ['\\', 'x', HexDigit(c as int / 16), HexDigit(c as int % 16)]
    else [c]
  }

  function Escape(s: string, q: char): string {
    if |s| == 0 then "" else EscapeChar(s[0], q) + Escape(s[1..], q)
  }

  /** `repr(s)`: `s` escaped between the quotes `ReprQuote` picks. */
  function Repr(s: string): (r: string)
    ensures |r| >= 2 && r[0] == ReprQuote(s) && r[|r| - 1] == ReprQuote(s)
  {
    var q := ReprQuote(s);
    [q] + Escape(s, q) + [q]
  }

  /** Reading a str literal's body back, escape by escape. */
  function Unescape(t: string): string
    decreases |t|
  {
    if |t| == 0 then ""
    else if t[0] == '\\' && |t| >= 2 then
      if t[1] == 't' then "\t" + Unescape(t[2..])
      else if t[1] == 'n' then "\n" + Unescape(t[2..])
      else if t[1] == 'r' then "\r" + Unescape(t[2..])
      else if t[1] == 'x' && |t| >= 4 then [(HexValue(t[2]) * 16 + HexValue(t[3])) as char] + Unescape(t[4..])
      else [t[1]] + Unescape(t[2..])
    else [t[0]] + Unescape(t[1..])
  }

  /** One escaped character reads back as itself, whatever follows it. */
  lemma EscapeCharUnescape(c: char, q: char, rest: string)
    requires q == '\'' || q == '"'
    ensures Unescape(EscapeChar(c, q) + rest) == [c] + Unescape(rest)
  {
    var e := EscapeChar(c, q);
    var t := e + rest;
    if |e| == 1 {
      assert t[1..] == rest;
    } else if |e| == 2 {
      assert t[2..] == rest;
    } else {
      assert t[4..] == rest;
      var n := c as int;
      assert HexValue(HexDigit(n / 16)) == n / 16;
      assert HexValue(HexDigit(n % 16)) == n % 16;
    }
  }

  /** Unescaping undoes escaping. */
  lemma {:induction false} EscapeRoundTrip(s: string, q: char)
    requires q == '\'' || q == '"'
    ensures Unescape(Escape(s, q)) == s
  {
    if |s| > 0 {
      EscapeCharUnescape(s[0], q, Escape(s[1..], q));
      EscapeRoundTrip(s[1..], q);
      assert s == [s[0]] + s[1..];
    }
  }

  /** Between its quotes, `repr(s)` reads back as `s`. */
  lemma ReprRoundTrip(s: string)
    ensures var r := Repr(s); Unescape(r[1..|r| - 1]) == s
  {
    var r := Repr(s);
    assert r[1..|r| - 1] == Escape(s, ReprQuote(s));
    EscapeRoundTrip(s, ReprQuote(s));
  }

  /** A character `repr` writes as it stands. */
  predicate PlainChar(c: char) {
    c != '\'' && c != '"' && c != '\\' && c as int >= 0x20 && c as int != 0x7F
  }

  /** A str of plain characters is written as itself between single quotes. */
  lemma {:induction false} EscapePlain(s: string, q: char)
    requires q == '\'' || q == '"'
    requires forall k :: 0 <= k < |s| ==> PlainChar(s[k])
    ensures Escape(s, q) == s
  {
    if |s| > 0 {
      EscapePlain(s[1..], q);
      assert s == [s[0]] + s[1..];
    }
  }

  lemma ReprPlain(s: string)
    requires forall k :: 0 <= k < |s| ==> PlainChar(s[k])
    ensures Repr(s) == "'" + s + "'"
  {
    assert '\'' !in s;
    EscapePlain(s, '\'');
  }

  // ---------------------------------------------------------------------------------------
  // UTF-8 length

  /** The number of bytes `c` takes in UTF-8. */
  function Utf8Size(c: char): nat {
    if c as int < 0x80 then 1 else if c as int < 0x800 then 2 else if c as int < 0x10000 then 3 else 4
  }

  /** The number of bytes `s` takes in UTF-8, the encoding in which a path reaches the kernel. */
  function Utf8Length(s: string): (n: nat)
    ensures |s| <= n <= 4 * |s|
  {
    if |s| == 0 then 0 else Utf8Size(s[0]) + Utf8Length(s[1..])
  }
}
