/** The Python string operations the pipeline relies on: startswith, strip,
    split on one character, iteration over the lines of a text file, and the
    decimal rendering of an int inside an f-string. */
module Text {

  predicate StartsWith(s: string, prefix: string) {
    |prefix| <= |s| && s[..|prefix|] == prefix
  }

  predicate EndsWith(s: string, suffix: string) {
    |suffix| <= |s| && s[|s| - |suffix|..] == suffix
  }

  /** The characters for which Python's str.isspace() holds. */
  predicate IsSpace(c: char) {
    || c == ' '
    || ('\t' <= c <= '\r')
    || ('\U{1C}' <= c <= '\U{1F}')
    || c == '\U{85}' || c == '\U{A0}' || c == '\U{1680}'
    || ('\U{2000}' <= c <= '\U{200A}')
    || c == '\U{2028}' || c == '\U{2029}' || c == '\U{202F}' || c == '\U{205F}' || c == '\U{3000}'
  }

  /** str.rstrip(): drop trailing whitespace. */
  function RStrip(s: string): (r: string)
    ensures |r| <= |s| && r == s[..|r|]
    ensures forall i :: |r| <= i < |s| ==> IsSpace(s[i])
    ensures r == "" || !IsSpace(r[|r| - 1])
  {
    if s != "" && IsSpace(s[|s| - 1]) then RStrip(s[..|s| - 1]) else s
  }

  /** str.lstrip(): drop leading whitespace. */
  function LStrip(s: string): (r: string)
    ensures |r| <= |s| && r == s[|s| - |r|..]
    ensures forall i :: 0 <= i < |s| - |r| ==> IsSpace(s[i])
    ensures r == "" || !IsSpace(r[0])
  {
    if s != "" && IsSpace(s[0]) then LStrip(s[1..]) else s
  }

  /** str.strip() with no argument. */
  function Strip(s: string): string {
    RStrip(LStrip(s))
  }

  /** rstrip drops one trailing blank at a time. */
  lemma RStripSpace(s: string, c: char)
    requires IsSpace(c)
    ensures RStrip(s + [c]) == RStrip(s)
  {
    assert (s + [c])[..|s|] == s;
  }

  /** A string that starts with a non-blank prefix ending in a non-blank
      character keeps that prefix when stripped, and loses only its trailing
      whitespace. */
  lemma StripKeepsPrefix(s: string, prefix: string)
    requires StartsWith(s, prefix) && prefix != ""
    requires !IsSpace(prefix[0]) && !IsSpace(prefix[|prefix| - 1])
    ensures Strip(s) == RStrip(s)
    ensures StartsWith(Strip(s), prefix)
  {
    assert s[0] == prefix[0];
    assert LStrip(s) == s;
  }

  /** str.split(sep) for a one-character separator: the pieces between
      separators, empty ones included. */
  function SplitOn(s: string, sep: char): (parts: seq<string>)
    ensures |parts| >= 1
    ensures forall i :: 0 <= i < |parts| ==> sep !in parts[i]
    decreases |s|
  {
    if s == "" then [""]
    else
      var rest := SplitOn(s[1..], sep);
      if s[0] == sep then [""] + rest
      else [[s[0]] + rest[0]] + rest[1..]
  }

  /** sep.join(parts), the partner of SplitOn. */
  function JoinWith(parts: seq<string>, sep: char): string
    requires |parts| >= 1
  {
    if |parts| == 1 then parts[0] else parts[0] + [sep] + JoinWith(parts[1..], sep)
  }

  /** Joining the pieces again gives back the string that was split. */
  lemma {:induction false} JoinSplitOn(s: string, sep: char)
    ensures JoinWith(SplitOn(s, sep), sep) == s
    decreases |s|
  {
    if s != "" {
      var rest := SplitOn(s[1..], sep);
      JoinSplitOn(s[1..], sep);
      if s[0] == sep {
        assert s == [sep] + s[1..];
      } else if |rest| == 1 {
        assert s == [s[0]] + s[1..];
      } else {
        assert JoinWith(rest, sep) == rest[0] + [sep] + JoinWith(rest[1..], sep);
        assert s == [s[0]] + s[1..];
      }
    }
  }

  /** Splitting a string that starts with a separator-free prefix glues that
      prefix to the first piece of the rest. */
  lemma {:induction false} SplitOnPrefix(p: string, rest: string, sep: char)
    requires sep !in p
    ensures SplitOn(p + rest, sep) == [p + SplitOn(rest, sep)[0]] + SplitOn(rest, sep)[1..]
    decreases |p|
  {
    if p != "" {
      assert (p + rest)[1..] == p[1..] + rest;
      SplitOnPrefix(p[1..], rest, sep);
      assert [p[0]] + (p[1..] + SplitOn(rest, sep)[0]) == p + SplitOn(rest, sep)[0];
    } else {
      var parts := SplitOn(rest, sep);
      assert p + rest == rest;
      assert p + parts[0] == parts[0];
      assert parts == [parts[0]] + parts[1..];
    }
  }

  /** Splitting pieces joined by the separator gives back the pieces, when
      none of them holds the separator. */
  lemma {:induction false} SplitJoinWith(parts: seq<string>, sep: char)
    requires |parts| >= 1
    requires forall i :: 0 <= i < |parts| ==> sep !in parts[i]
    ensures SplitOn(JoinWith(parts, sep), sep) == parts
    decreases |parts|
  {
    if |parts| == 1 {
      SplitOnPrefix(parts[0], "", sep);
      assert parts[0] + "" == parts[0];
    } else {
      var tail := JoinWith(parts[1..], sep);
      SplitJoinWith(parts[1..], sep);
      assert parts[0] + [sep] + tail == parts[0] + ([sep] + tail);
      SplitOnPrefix(parts[0], [sep] + tail, sep);
      assert ([sep] + tail)[1..] == tail;
      assert SplitOn([sep] + tail, sep) == [""] + parts[1..];
      assert parts[0] + "" == parts[0];
    }
  }

  lemma NotInConcat(c: char, a: string, b: string)
    requires c !in a && c !in b
    ensures c !in a + b
  {
  }

  /** The first piece of a split is the text before the first separator. */
  lemma FirstPieceBeforeSeparator(p: string, rest: string, sep: char)
    requires sep !in p
    requires rest == "" || rest[0] == sep
    ensures SplitOn(p + rest, sep)[0] == p
  {
    SplitOnPrefix(p, rest, sep);
    assert SplitOn(rest, sep)[0] == "";
    assert p + "" == p;
  }

  /** The length of the first line of a non-empty text, its newline included. */
  function FirstLineLength(t: string): (n: nat)
    requires t != ""
    ensures 1 <= n <= |t|
    ensures forall i :: 0 <= i < n - 1 ==> t[i] != '\n'
    ensures n < |t| ==> t[n - 1] == '\n'
  {
    if t[0] == '\n' || |t| == 1 then 1 else 1 + FirstLineLength(t[1..])
  }

  /** The lines a `for line in f` loop yields: each keeps its newline, and
      only the last may lack one. */
  function SplitLines(t: string): (lines: seq<string>)
    ensures forall i :: 0 <= i < |lines| ==> lines[i] != ""
    ensures forall i :: 0 <= i < |lines| - 1 ==> lines[i][|lines[i]| - 1] == '\n'
    decreases |t|
  {
    if t == "" then [] else
      var n := FirstLineLength(t);
      [t[..n]] + SplitLines(t[n..])
  }

  function Concat(lines: seq<string>): string {
    if lines == [] then "" else lines[0] + Concat(lines[1..])
  }

  /** Reading a file line by line loses and adds nothing. */
  lemma {:induction false} ConcatSplitLines(t: string)
    ensures Concat(SplitLines(t)) == t
    decreases |t|
  {
    if t != "" {
      var n := FirstLineLength(t);
      ConcatSplitLines(t[n..]);
      assert SplitLines(t)[1..] == SplitLines(t[n..]);
      assert t == t[..n] + t[n..];
    }
  }

  /** No line but the last holds a newline except at its end. */
  lemma {:induction false} SplitLinesNewlineOnlyAtEnd(t: string, k: nat, i: nat)
    requires k < |SplitLines(t)| && i + 1 < |SplitLines(t)[k]|
    ensures SplitLines(t)[k][i] != '\n'
    decreases |t|
  {
    var n := FirstLineLength(t);
    if k > 0 {
      assert SplitLines(t)[k] == SplitLines(t[n..])[k - 1];
      SplitLinesNewlineOnlyAtEnd(t[n..], k - 1, i);
    }
  }

  function DigitChar(d: nat): char
    requires d < 10
  {
    ('0' as int + d) as char
  }

  function DigitValue(c: char): int {
    c as int - '0' as int
  }

  /** str(n) for a natural number. */
  function NatToDecimal(n: nat): (s: string)
    ensures s != ""
    ensures forall i :: 0 <= i < |s| ==> '0' <= s[i] <= '9'
    ensures |s| == 1 || s[0] != '0'
  {
    if n < 10 then [DigitChar(n)] else NatToDecimal(n / 10) + [DigitChar(n % 10)]
  }

  /** str(n) for a Python int. */
  function IntToDecimal(n: int): string {
    if n < 0 then "-" + NatToDecimal(-n) else NatToDecimal(n)
  }

  /** int(s) for a string of decimal digits, the partner of NatToDecimal. */
  function DecimalToNat(s: string): int {
    if s == "" then 0 else 10 * DecimalToNat(s[..|s| - 1]) + DigitValue(s[|s| - 1])
  }

  lemma {:induction false} DecimalRoundTrip(n: nat)
    ensures DecimalToNat(NatToDecimal(n)) == n
  {
    var s := NatToDecimal(n);
    if n >= 10 {
      DecimalRoundTrip(n / 10);
      assert s[..|s| - 1] == NatToDecimal(n / 10);
    }
  }
}
