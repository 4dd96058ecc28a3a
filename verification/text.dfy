/** Character classes and small string helpers shared by the model of
    coloredlogcat.py. The source is a Python 2 script working on byte
    strings, so `\d` is exactly '0'..'9' and `\s` (like `str.strip()`)
    is exactly the six ASCII whitespace characters. */
module Text {

  /** Absence of a value (`None` in the source). */
  datatype Option<+T> = None | Some(value: T)

  predicate IsDigit(c: char) {
    '0' <= c <= '9'
  }

  /** Python 2's `\s` on byte strings, also the set `str.strip()` removes. */
  predicate IsSpace(c: char) {
    c == ' ' || c == '\t' || c == '\n' || c == '\r' || c == '\U{0B}' || c == '\U{0C}'
  }

  predicate AllSpace(s: string) {
    forall i :: 0 <= i < |s| ==> IsSpace(s[i])
  }

  predicate AllDigits(s: string) {
    forall i :: 0 <= i < |s| ==> IsDigit(s[i])
  }

  predicate AllBlank(s: string) {
    forall i :: 0 <= i < |s| ==> s[i] == ' '
  }

  /** What `.` in a pattern can consume: no line feed. */
  predicate NoNewline(s: string) {
    forall i :: 0 <= i < |s| ==> s[i] != '\n'
  }

  function Max(a: int, b: int): int {
    if a < b then b else a
  }

  /** `" " * n` */
  function Spaces(n: nat): (s: string)
    ensures |s| == n && AllBlank(s)
  {
    if n == 0 then "" else Spaces(n - 1) + " "
  }

  /** The end of the longest run of characters satisfying `P` that starts
      at `i`: the regex engine's view of a greedy `P+` / `P*`. */
  function Span(s: string, i: nat, P: char -> bool): (j: nat)
    requires i <= |s|
    ensures i <= j <= |s|
    ensures forall k :: i <= k < j ==> P(s[k])
    ensures j < |s| ==> !P(s[j])
    decreases |s| - i
  {
    if i == |s| || !P(s[i]) then i else Span(s, i + 1, P)
  }

  /** A run is determined by where it starts: any `m` with the two
      properties of `Span` is `Span` itself. */
  lemma SpanUnique(s: string, i: nat, P: char -> bool, m: nat)
    requires i <= m <= |s|
    requires forall k :: i <= k < m ==> P(s[k])
    requires m < |s| ==> !P(s[m])
    ensures Span(s, i, P) == m
  {
  }

  /** Number of leading whitespace characters. */
  function LeadingSpace(s: string): (i: nat)
    ensures i <= |s| && AllSpace(s[..i])
    ensures i < |s| ==> !IsSpace(s[i])
  {
    Span(s, 0, IsSpace)
  }

  /** Index just past the last non-whitespace character at or after `lo`. */
  function TrailingEnd(s: string, lo: nat): (j: nat)
    requires lo <= |s|
    ensures lo <= j <= |s| && AllSpace(s[j..])
    ensures j > lo ==> !IsSpace(s[j - 1])
    decreases |s|
  {
    if |s| == lo || !IsSpace(s[|s| - 1]) then |s|
    else
      var j := TrailingEnd(s[..|s| - 1], lo);
      assert s[j..] == s[..|s| - 1][j..] + [s[|s| - 1]];
      j
  }

  /** `str.strip()`: the text with surrounding whitespace removed. The
      result is the unique infix of `s` that is either empty (when `s` is
      all whitespace) or starts and ends with non-whitespace, with only
      whitespace around it. */
  function Strip(s: string): (r: string)
    ensures |r| <= |s|
    ensures r == [] <==> AllSpace(s)
    ensures r != [] ==> !IsSpace(r[0]) && !IsSpace(r[|r| - 1])
    ensures exists i :: 0 <= i <= |s| - |r| && s[i..i + |r|] == r && AllSpace(s[..i]) && AllSpace(s[i + |r|..])
  {
    var i := LeadingSpace(s);
    var j := TrailingEnd(s, i);
    StripBounds(s, i, j);
    s[i..j]
  }

  /** The infix between the leading and the trailing whitespace. */
  lemma {:induction false} StripBounds(s: string, i: nat, j: nat)
    requires i == LeadingSpace(s) && j == TrailingEnd(s, i)
    ensures i <= j <= |s|
    ensures i == j <==> AllSpace(s)
    ensures i < j ==> !IsSpace(s[i]) && !IsSpace(s[j - 1])
    ensures s[i..i + (j - i)] == s[i..j] && AllSpace(s[..i]) && AllSpace(s[j..])
  {
    forall x | 0 <= x < i ensures IsSpace(s[x]) {
      assert s[..i][x] == s[x];
    }
    forall x | j <= x < |s| ensures IsSpace(s[x]) {
      assert s[j..][x - j] == s[x];
    }
    if i == j {
      assert AllSpace(s);
    }
  }

  /** `s[-n:]` for n > 0: the last `n` characters, or all of `s`. */
  function LastN(s: string, n: nat): (r: string)
    requires n > 0
    ensures |r| == if |s| <= n then |s| else n
    ensures s == s[..|s| - |r|] + r
  {
    if |s| <= n then s else s[|s| - n..]
  }

  function DigitChar(d: nat): char
    requires d < 10
  {
    '0' + d as char
  }

  /** Value of a string of decimal digits. */
  function DecimalValue(s: string): nat
    requires AllDigits(s)
  {
    if s == [] then 0
    else DecimalValue(s[..|s| - 1]) * 10 + (s[|s| - 1] - '0') as nat
  }

  /** Decimal rendering of a natural number, as `'%d' % n`. */
  function NatToDecimal(n: nat): (s: string)
    ensures s != [] && AllDigits(s)
    ensures s[0] == '0' ==> n == 0
    ensures DecimalValue(s) == n
  {
    if n < 10 then [DigitChar(n)]
    else
      var s := NatToDecimal(n / 10) + [DigitChar(n % 10)];
      assert s[..|s| - 1] == NatToDecimal(n / 10);
      s
  }

  /** Distinct numbers render differently. */
  lemma NatToDecimalInjective(a: nat, b: nat)
    requires NatToDecimal(a) == NatToDecimal(b)
    ensures a == b
  {
    assert DecimalValue(NatToDecimal(a)) == DecimalValue(NatToDecimal(b));
  }
}
