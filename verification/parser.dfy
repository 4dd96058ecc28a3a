/** The record recogniser: `PATTERN` (coloredlogcat.py:32) applied with
    `re.match` and the PID decoration removed (coloredlogcat.py:142-145).

    The pattern is `DD-DD`, a space, `DD:DD:DD.DDD`, a space, a level
    letter, `/`, a greedy tag `(.*)`, the PID group `(\(\s+\d+\))`, `:`,
    and the message `(.*)` up to `$`. `.` never consumes a line feed and
    `$` also matches just before a final line feed, so the pattern is
    matched against the line with one trailing `'\n'` removed. */
module Parser {
  import opened Text

  datatype Level = Verbose | Debug | Info | Warning | Error

  function LevelChar(l: Level): char {
    match l
    case Verbose => 'V'
    case Debug => 'D'
    case Info => 'I'
    case Warning => 'W'
    case Error => 'E'
  }

  /** The class `[VDIWE]`. */
  function LevelOf(c: char): (l: Option<Level>)
    ensures l.Some? <==> c in "VDIWE"
    ensures l.Some? ==> LevelChar(l.value) == c
  {
    match c
    case 'V' => Some(Verbose)
    case 'D' => Some(Debug)
    case 'I' => Some(Info)
    case 'W' => Some(Warning)
    case 'E' => Some(Error)
    case _ => None
  }

  lemma LevelRoundTrip(l: Level)
    ensures LevelOf(LevelChar(l)) == Some(l)
  {
  }

  /** The six groups of a match; `procId` is the PID group with its
      parentheses removed (`procID[1:-1]`), so it keeps its padding. */
  datatype Record = Record(date: string, time: string, level: Level, tag: string, procId: string, message: string)

  /** `\d{2}-\d{2}` */
  predicate IsDate(s: string) {
    |s| == 5 && IsDigit(s[0]) && IsDigit(s[1]) && s[2] == '-' && IsDigit(s[3]) && IsDigit(s[4])
  }

  /** `\d{2}:\d{2}:\d{2}\.\d{3}` */
  predicate IsTime(s: string) {
    && |s| == 12
    && IsDigit(s[0]) && IsDigit(s[1]) && s[2] == ':'
    && IsDigit(s[3]) && IsDigit(s[4]) && s[5] == ':'
    && IsDigit(s[6]) && IsDigit(s[7]) && s[8] == '.'
    && IsDigit(s[9]) && IsDigit(s[10]) && IsDigit(s[11])
  }

  /** `\s+\d+`: the inside of the PID group. */
  ghost predicate IsPaddedPid(p: string) {
    exists k :: 0 < k < |p| && AllSpace(p[..k]) && AllDigits(p[k..])
  }

  /** The field values a match can produce. */
  ghost predicate WellFormed(r: Record) {
    && IsDate(r.date)
    && IsTime(r.time)
    && NoNewline(r.tag)
    && IsPaddedPid(r.procId)
    && NoNewline(r.message)
  }

  /** The text a record was matched from. */
  function Unparse(r: Record): string {
    r.date + " " + r.time + " " + [LevelChar(r.level)] + "/" + r.tag + "(" + r.procId + "):" + r.message
  }

  /** Where each field sits in a record's text. */
  lemma {:induction false} UnparseFields(r: Record)
    requires |r.date| == 5 && |r.time| == 12
    ensures var b := Unparse(r);
            var t := TagStart + |r.tag|;
            && |b| == t + |r.procId| + 3 + |r.message|
            && b[..5] == r.date && b[5] == ' ' && b[6..18] == r.time && b[18] == ' '
            && b[19] == LevelChar(r.level) && b[20] == '/'
            && b[TagStart..t] == r.tag
            && b[t..] == "(" + r.procId + "):" + r.message
            && b[|b| - 1] == (if r.message == [] then ':' else r.message[|r.message| - 1])
  {
    var b := Unparse(r);
    var t := TagStart + |r.tag|;
    var tail := "(" + r.procId + "):" + r.message;
    assert b == r.date + " " + r.time + " " + [LevelChar(r.level)] + "/" + r.tag + tail;
    assert b[t..] == tail;
    assert b[|b| - 1] == tail[|tail| - 1];
  }

  /** What `$` sees: the line without one trailing line feed. */
  function Body(line: string): (b: string)
    ensures line == b || line == b + "\n"
    ensures |line| > 0 && line[|line| - 1] == '\n' ==> line == b + "\n"
    ensures |line| == 0 || line[|line| - 1] != '\n' ==> b == line
  {
    if |line| > 0 && line[|line| - 1] == '\n' then line[..|line| - 1] else line
  }

  /** The pattern matches `line` with these groups. */
  ghost predicate Matches(line: string, r: Record) {
    WellFormed(r) && Body(line) == Unparse(r)
  }

  /** Where the tag starts: after `DD-DD DD:DD:DD.DDD L/`. */
  const TagStart: nat := 21

  /** The fixed-position prefix of the pattern. */
  predicate HeaderOk(b: string) {
    && |b| >= TagStart
    && IsDate(b[..5]) && b[5] == ' '
    && IsTime(b[6..18]) && b[18] == ' '
    && LevelOf(b[19]).Some? && b[20] == '/'
  }

  /** The PID group contents and the message of a split. */
  datatype Split = Split(procId: string, message: string)

  /** Tries to end the tag at position `t`: the rest must be `(`, spaces,
      digits, `)`, `:` and a message without line feed. */
  function SplitAt(b: string, t: nat): (res: Option<Split>)
    requires TagStart <= t <= |b|
    ensures res.Some? ==>
              && NoNewline(b[TagStart..t])
              && b[t..] == "(" + res.value.procId + "):" + res.value.message
              && IsPaddedPid(res.value.procId)
              && NoNewline(res.value.message)
  {
    if !NoNewline(b[TagStart..t]) || t == |b| || b[t] != '(' then None
    else
      var i := Span(b, t + 1, IsSpace);
      var j := Span(b, i, IsDigit);
      if i == t + 1 || j == i || j + 1 >= |b| || b[j] != ')' || b[j + 1] != ':' then None
      else if !NoNewline(b[j + 2..]) then None
      else
        SpansGivePid(b, t, i, j);
        Some(Split(b[t + 1..j], b[j + 2..]))
  }

  /** What the accepting path of `SplitAt` cuts out is a padded PID
      group. */
  lemma {:induction false} SpansGivePid(b: string, t: nat, i: nat, j: nat)
    requires t < |b| && b[t] == '('
    requires i == Span(b, t + 1, IsSpace) && j == Span(b, i, IsDigit)
    requires t + 1 < i < j && j + 1 < |b| && b[j] == ')' && b[j + 1] == ':'
    ensures IsPaddedPid(b[t + 1..j])
    ensures b[t..] == "(" + b[t + 1..j] + "):" + b[j + 2..]
  {
    var p := b[t + 1..j];
    var k := i - (t + 1);
    forall x | 0 <= x < k ensures IsSpace(p[..k][x]) {
      assert p[..k][x] == b[t + 1 + x];
    }
    forall x | 0 <= x < |p| - k ensures IsDigit(p[k..][x]) {
      assert p[k..][x] == b[i + x];
    }
    assert AllSpace(p[..k]) && AllDigits(p[k..]);
    var tail := "(" + p + "):" + b[j + 2..];
    assert |tail| == |b[t..]|;
    forall x | 0 <= x < |tail| ensures tail[x] == b[t..][x] {
      if x == 0 {
      } else if x <= |p| {
        assert tail[x] == p[x - 1];
      } else if x <= |p| + 2 {
      } else {
        assert tail[x] == b[j + 2..][x - |p| - 3];
      }
    }
  }

  /** The positions of the pieces of `(` + padding + digits + `):` +
      message placed at `t`. */
  lemma {:induction false} PidGroupAt(b: string, t: nat, pid: string, msg: string, k: nat)
    requires t <= |b| && b[t..] == "(" + pid + "):" + msg
    requires 0 < k < |pid| && AllSpace(pid[..k]) && AllDigits(pid[k..])
    ensures |b| == t + |pid| + 3 + |msg|
    ensures b[t] == '(' && b[t + 1 + |pid|] == ')' && b[t + 2 + |pid|] == ':'
    ensures Span(b, t + 1, IsSpace) == t + 1 + k
    ensures Span(b, t + 1 + k, IsDigit) == t + 1 + |pid|
    ensures b[t + 1..t + 1 + |pid|] == pid && b[t + 3 + |pid|..] == msg
  {
    PidGroupChars(b, t, pid, msg, k);
    SpanUnique(b, t + 1, IsSpace, t + 1 + k);
    SpanUnique(b, t + 1 + k, IsDigit, t + 1 + |pid|);
  }

  /** The characters of `(` + padding + digits + `):` + message placed at
      `t`. */
  lemma {:induction false} PidGroupChars(b: string, t: nat, pid: string, msg: string, k: nat)
    requires t <= |b| && b[t..] == "(" + pid + "):" + msg
    requires 0 < k < |pid| && AllSpace(pid[..k]) && AllDigits(pid[k..])
    ensures |b| == t + |pid| + 3 + |msg|
    ensures b[t] == '(' && b[t + 1 + |pid|] == ')' && b[t + 2 + |pid|] == ':'
    ensures forall x :: t + 1 <= x < t + 1 + k ==> IsSpace(b[x])
    ensures forall x :: t + 1 + k <= x < t + 1 + |pid| ==> IsDigit(b[x])
    ensures !IsSpace(b[t + 1 + k]) && !IsDigit(b[t + 1 + |pid|])
    ensures b[t + 1..t + 1 + |pid|] == pid && b[t + 3 + |pid|..] == msg
  {
    var tail := "(" + pid + "):" + msg;
    assert forall x :: t <= x < |b| ==> b[x] == tail[x - t];
    assert forall y :: 1 <= y <= |pid| ==> tail[y] == pid[y - 1];
    assert forall y :: 0 <= y < k ==> pid[y] == pid[..k][y];
    assert forall y :: k <= y < |pid| ==> pid[y] == pid[k..][y - k];
    assert tail[3 + |pid|..] == msg;
    assert tail[1..1 + |pid|] == pid;
    assert pid[k] == pid[k..][0];
  }

  /** Every way of writing the rest of the line as a PID group and a
      message is found by `SplitAt`: the split at a given tag end is
      unique. */
  lemma {:induction false} SplitAtComplete(b: string, t: nat, pid: string, msg: string)
    requires TagStart <= t <= |b|
    requires NoNewline(b[TagStart..t])
    requires b[t..] == "(" + pid + "):" + msg
    requires IsPaddedPid(pid) && NoNewline(msg)
    ensures SplitAt(b, t) == Some(Split(pid, msg))
  {
    var k :| 0 < k < |pid| && AllSpace(pid[..k]) && AllDigits(pid[k..]);
    PidGroupAt(b, t, pid, msg, k);
    SplitAtUnfold(b, t, t + 1 + k, t + 1 + |pid|, pid, msg);
  }

  /** The accepting path of `SplitAt`. */
  lemma {:induction false} SplitAtUnfold(b: string, t: nat, i: nat, j: nat, pid: string, msg: string)
    requires TagStart <= t < |b| && NoNewline(b[TagStart..t]) && b[t] == '('
    requires i == Span(b, t + 1, IsSpace) && j == Span(b, i, IsDigit)
    requires t + 1 < i < j && j + 1 < |b| && b[j] == ')' && b[j + 1] == ':'
    requires b[t + 1..j] == pid && b[j + 2..] == msg && NoNewline(msg)
    ensures SplitAt(b, t) == Some(Split(pid, msg))
  {
  }

  /** The last position in `lo..t` satisfying `P`: a backtracking search
      from the top. */
  function LastWhere(lo: nat, t: nat, P: nat -> bool): (res: Option<nat>)
    requires lo <= t
    ensures res.Some? ==> lo <= res.value <= t && P(res.value)
    decreases t
  {
    if P(t) then Some(t)
    else if t == lo then None
    else LastWhere(lo, t - 1, P)
  }

  /** The search misses nothing: whenever `P` holds at some `u <= t`, a
      position is found and it is `u` or later. */
  lemma {:induction false} LastWhereMaximal(lo: nat, t: nat, u: nat, P: nat -> bool)
    requires lo <= u <= t && P(u)
    ensures LastWhere(lo, t, P).Some? && u <= LastWhere(lo, t, P).value
    decreases t
  {
    if u < t && !P(t) {
      LastWhereMaximal(lo, t - 1, u, P);
    }
  }

  /** The tag ends at which `b` splits into a tag and a PID group. */
  function SplitsAt(b: string): nat -> bool {
    u => TagStart <= u <= |b| && SplitAt(b, u).Some?
  }

  /** The longest tag the line splits after: the greedy `(.*)` backtracks
      from the end of the line. */
  function LastSplit(b: string): (res: Option<nat>)
    requires TagStart <= |b|
    ensures res.Some? ==> TagStart <= res.value <= |b| && SplitAt(b, res.value).Some?
  {
    LastWhere(TagStart, |b|, SplitsAt(b))
  }

  /** Whenever the line splits after a tag ending at `t`, the search finds
      a split at `t` or later. */
  lemma {:induction false} LastSplitFinds(b: string, t: nat)
    requires TagStart <= t <= |b| && SplitAt(b, t).Some?
    ensures LastSplit(b).Some? && t <= LastSplit(b).value
  {
    assert SplitsAt(b)(t);
    LastWhereMaximal(TagStart, |b|, t, SplitsAt(b));
  }

  /** `retag.match(line)` followed by `procID[1:-1]`: the groups of the
      match, or `None` when the line is not a record. */
  function Parse(line: string): Option<Record> {
    var b := Body(line);
    if !HeaderOk(b) then None
    else
      match LastSplit(b)
      case None => None
      case Some(t) =>
        var s := SplitAt(b, t).value;
        Some(Record(b[..5], b[6..18], LevelOf(b[19]).value, b[TagStart..t], s.procId, s.message))
  }

  /** The fixed-position fields and the tag, put back in front of a split,
      give the line back. */
  lemma {:induction false} Reassemble(b: string, t: nat, s: Split)
    requires HeaderOk(b) && TagStart <= t <= |b|
    requires b[t..] == "(" + s.procId + "):" + s.message
    ensures b == Unparse(Record(b[..5], b[6..18], LevelOf(b[19]).value, b[TagStart..t], s.procId, s.message))
  {
    var r := Record(b[..5], b[6..18], LevelOf(b[19]).value, b[TagStart..t], s.procId, s.message);
    assert b == b[..5] + [b[5]] + b[6..18] + [b[18]] + [b[19]] + [b[20]] + b[TagStart..t] + b[t..];
  }

  /** A recognised line is matched by the pattern with the groups `Parse`
      reports. */
  lemma {:induction false} ParseSound(line: string)
    requires Parse(line).Some?
    ensures Matches(line, Parse(line).value)
  {
    var b := Body(line);
    var t := LastSplit(b).value;
    Reassemble(b, t, SplitAt(b, t).value);
  }

  /** Any way the pattern can match `line` has a tag no longer than the one
      `Parse` reports, and `Parse` does report a match. */
  lemma {:induction false} ParseComplete(line: string, r: Record)
    requires Matches(line, r)
    ensures Parse(line).Some? && |r.tag| <= |Parse(line).value.tag|
  {
    var b := Body(line);
    MatchSplits(line, r);
    LastSplitFinds(b, TagStart + |r.tag|);
    ParseFromSplit(line);
  }

  /** A match puts the header in place and the line splits after its
      tag. */
  lemma {:induction false} MatchSplits(line: string, r: Record)
    requires Matches(line, r)
    ensures var b := Body(line);
            && HeaderOk(b) && TagStart + |r.tag| <= |b|
            && SplitAt(b, TagStart + |r.tag|) == Some(Split(r.procId, r.message))
  {
    var b := Body(line);
    var t := TagStart + |r.tag|;
    UnparseFields(r);
    assert HeaderOk(b);
    SplitAtComplete(b, t, r.procId, r.message);
  }

  /** `Parse` reports the tag the search ends. */
  lemma {:induction false} ParseFromSplit(line: string)
    requires HeaderOk(Body(line)) && LastSplit(Body(line)).Some?
    ensures Parse(line).Some? && |Parse(line).value.tag| == LastSplit(Body(line)).value - TagStart
  {
  }

  /** Two matches with tags of the same length are the same match. */
  lemma {:induction false} MatchUnique(line: string, r1: Record, r2: Record)
    requires Matches(line, r1) && Matches(line, r2) && |r1.tag| == |r2.tag|
    ensures r1 == r2
  {
    var b := Body(line);
    var t := TagStart + |r1.tag|;
    UnparseFields(r1);
    UnparseFields(r2);
    LevelRoundTrip(r1.level);
    LevelRoundTrip(r2.level);
    SplitAtComplete(b, t, r1.procId, r1.message);
    SplitAtComplete(b, t, r2.procId, r2.message);
  }

  /** `Parse` is exactly the regular expression: it reports the match with
      the longest tag when the pattern matches, and `None` when it does
      not. */
  lemma {:induction false} ParseCorrect(line: string)
    ensures Parse(line).Some? ==>
              && Matches(line, Parse(line).value)
              && forall r :: Matches(line, r) ==> |r.tag| <= |Parse(line).value.tag|
    ensures Parse(line).None? <==> forall r :: !Matches(line, r)
  {
    if Parse(line).Some? {
      ParseSound(line);
    }
    forall r | Matches(line, r)
      ensures Parse(line).Some? && |r.tag| <= |Parse(line).value.tag|
    {
      ParseComplete(line, r);
    }
  }

  /** A well-formed record whose message has no `(` is read back from its
      own text, with or without the line feed `readline` leaves on it. */
  lemma {:induction false} ParseUnparse(r: Record)
    requires WellFormed(r) && '(' !in r.message
    ensures Parse(Unparse(r)) == Some(r)
    ensures Parse(Unparse(r) + "\n") == Some(r)
  {
    var line := Unparse(r);
    UnparseFields(r);
    assert Body(line) == line;
    assert (line + "\n")[..|line|] == line;
    assert Body(line + "\n") == line;
    ParseMaximalTag(line, r);
    ParseMaximalTag(line + "\n", r);
  }

  /** Past the tag, only the PID group's `(` is a `(`. */
  lemma {:induction false} OnlyOneParen(r: Record, x: nat)
    requires |r.date| == 5 && |r.time| == 12
    requires IsPaddedPid(r.procId) && '(' !in r.message
    requires TagStart + |r.tag| < x < |Unparse(r)|
    ensures Unparse(r)[x] != '('
  {
    var b := Unparse(r);
    var t := TagStart + |r.tag|;
    UnparseFields(r);
    var k :| 0 < k < |r.procId| && AllSpace(r.procId[..k]) && AllDigits(r.procId[k..]);
    var tail := "(" + r.procId + "):" + r.message;
    var y := x - t;
    assert b[x] == tail[y];
    if y <= |r.procId| {
      if y - 1 < k {
        assert tail[y] == r.procId[..k][y - 1];
      } else {
        assert tail[y] == r.procId[k..][y - 1 - k];
      }
    } else if y > |r.procId| + 2 {
      assert tail[y] == r.message[y - |r.procId| - 3];
    }
  }

  lemma {:induction false} ParseMaximalTag(line: string, r: Record)
    requires WellFormed(r) && '(' !in r.message && Body(line) == Unparse(r)
    ensures Parse(line) == Some(r)
  {
    ParseComplete(line, r);
    var r0 := Parse(line).value;
    ParseSound(line);
    var t0 := TagStart + |r0.tag|;
    if |r0.tag| > |r.tag| {
      UnparseFields(r0);
      OnlyOneParen(r, t0);
      assert false;
    }
    MatchUnique(line, r, r0);
  }

  /** The greedy tag: an inner `( 1):` belongs to the tag when a later
      PID group follows. */
  lemma {:induction false} GreedyTagExample(line: string)
    requires line == "01-02 03:04:05.678 I/a( 1):b( 2):c\n"
    ensures Parse(line) == Some(Record("01-02", "03:04:05.678", Info, "a( 1):b", " 2", "c"))
  {
    var r := Record("01-02", "03:04:05.678", Info, "a( 1):b", " 2", "c");
    ExampleWellFormed(r);
    ExampleText(r, line);
    ParseUnparse(r);
  }

  // The lemmas below only split the example line's string literals into
  // pieces, so that each literal equality stays within the solver's budget.

  lemma {:induction false} ExampleText(r: Record, line: string)
    requires r == Record("01-02", "03:04:05.678", Info, "a( 1):b", " 2", "c")
    requires line == "01-02 03:04:05.678 I/a( 1):b( 2):c\n"
    ensures line == Unparse(r) + "\n"
  {
    var h := r.date + " " + r.time + " " + [LevelChar(r.level)] + "/";
    ExampleHead(r.date, r.time, LevelChar(r.level), h);
    var g := h + r.tag + "(";
    ExampleTag(h, r.tag, g);
    ExampleWhole(g, r.procId, r.message, line);
  }

  lemma {:induction false} ExampleHead(date: string, time: string, c: char, h: string)
    requires date == "01-02" && time == "03:04:05.678" && c == 'I'
    requires h == date + " " + time + " " + [c] + "/"
    ensures h == "01-02 03:04:05.678 I/"
  {
  }

  lemma {:induction false} ExampleTag(h: string, tag: string, g: string)
    requires h == "01-02 03:04:05.678 I/" && tag == "a( 1):b" && g == h + tag + "("
    ensures g == "01-02 03:04:05.678 I/a( 1):b("
  {
  }

  lemma {:induction false} ExampleWhole(g: string, pid: string, message: string, line: string)
    requires g == "01-02 03:04:05.678 I/a( 1):b(" && pid == " 2" && message == "c"
    requires line == "01-02 03:04:05.678 I/a( 1):b( 2):c\n"
    ensures line == g + pid + "):" + message + "\n"
  {
  }

  lemma {:induction false} ExampleWellFormed(r: Record)
    requires r == Record("01-02", "03:04:05.678", Info, "a( 1):b", " 2", "c")
    ensures WellFormed(r) && '(' !in r.message
  {
    assert AllSpace(r.procId[..1]) && AllDigits(r.procId[1..]);
  }
}
