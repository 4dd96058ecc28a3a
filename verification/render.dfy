/** The per-record assembly of `main` (coloredlogcat.py:142-154): the PID
    filter, the four header cells and the wrapped message, as one step of
    the read loop that takes the colour allocator's state and returns the
    next one. */
module Render {
  import opened Text
  import Escapes
  import Format
  import ColorAllocator
  import Wrap
  import Parser

  const WidthLogLevel: nat := 3
  const WidthTag: nat := 25
  const WidthPid: nat := 7
  const WidthTimestamp: nat := 12
  const HeaderSize: nat := WidthTimestamp + 1 + WidthPid + 1 + WidthTag + 1 + WidthLogLevel + 1

  /** The indent `wrap_text` is given for continuation lines. */
  const MessageIndent: nat := HeaderSize + 1

  /** `LOG_LEVEL_FORMATTING`: total on the five levels the pattern admits. */
  function LevelFormatting(l: Parser.Level): string {
    match l
    case Verbose => Escapes.LogLevelVerbose
    case Debug => Escapes.LogLevelDebug
    case Info => Escapes.LogLevelInfo
    case Warning => Escapes.LogLevelWarning
    case Error => Escapes.LogLevelError
  }

  lemma LevelFormattingNonEmpty(l: Parser.Level)
    ensures LevelFormatting(l) != []
  {
  }

  /** `tag.strip()[-WIDTH_TAG:]`: the last 25 characters of the trimmed
      tag. */
  function TagText(tag: string): (r: string)
    ensures |r| == if |Strip(tag)| <= WidthTag then |Strip(tag)| else WidthTag
    ensures Strip(tag) == Strip(tag)[..|Strip(tag)| - |r|] + r
  {
    LastN(Strip(tag), WidthTag)
  }

  /** The PID filter as written, `pid and procID != pid`: true when the
      record is skipped. */
  predicate SkippedAsWritten(filter: Option<string>, procId: string) {
    Format.Truthy(filter) && procId != filter.value
  }

  /** The PID filter as intended: the padding of the PID group is not part
      of the process ID it is compared with. */
  predicate Skipped(filter: Option<string>, procId: string) {
    Format.Truthy(filter) && Strip(procId) != filter.value
  }

  /** The escapes of the four header cells; an empty escape is falsy, so
      `format` leaves that cell unpainted. */
  datatype CellColors = CellColors(time: string, pid: string, tag: string, level: string)

  /** The four header cells, each followed by a space
      (coloredlogcat.py:149-152). */
  function Header(r: Parser.Record, c: CellColors): string {
    Format.Format(r.time, WidthTimestamp, Some(c.time), "center") + " "
    + Format.Format(r.procId, WidthPid, Some(c.pid), "center") + " "
    + Format.Format(TagText(r.tag), WidthTag, Some(c.tag), "right") + " "
    + Format.Format([Parser.LevelChar(r.level)], WidthLogLevel, Some(c.level), "center") + " "
  }

  /** A rendered record and the allocator state after it. */
  datatype Rendered = Rendered(text: string, next: ColorAllocator.Allocator)

  /** The header painted with the record's colours, then the wrapped
      message (coloredlogcat.py:149-154). */
  function RenderRecord(r: Parser.Record, a: ColorAllocator.Allocator, width: int): (res: Rendered)
    requires ColorAllocator.Valid(a)
    requires r.message == [] || width > MessageIndent
    ensures res.next == ColorAllocator.GetColor(a, r.tag).next
  {
    var pick := ColorAllocator.GetColor(a, r.tag);
    var colors := CellColors(Escapes.LogTimestamp, Escapes.LogProcess, pick.color, LevelFormatting(r.level));
    Rendered(Header(r, colors) + Wrap.Wrapped(r.message, MessageIndent, width), pick.next)
  }

  /** What the header looks like on the terminal: the same cells with no
      escapes. */
  function VisibleHeader(r: Parser.Record): string {
    Header(r, CellColors("", "", "", ""))
  }

  /** The layout of a rendered record: each cell is its escape, its
      visible text and the reset; the timestamp is the time itself, the
      tag is right-aligned in exactly 25 columns after the colour the
      allocator gives the raw tag, and the level letter is centred in
      three. The visible texts are those of `VisibleHeaderLayout`. */
  lemma {:induction false} RenderedLayout(r: Parser.Record, a: ColorAllocator.Allocator, width: int)
    requires ColorAllocator.Valid(a) && ColorAllocator.Colored(a)
    requires r.message == [] || width > MessageIndent
    requires Parser.IsTime(r.time)
    ensures var t := TagText(r.tag);
            RenderRecord(r, a, width).text
            == (Escapes.LogTimestamp + r.time + Escapes.Reset) + " "
               + (Escapes.LogProcess + Format.Center(r.procId, WidthPid) + Escapes.Reset) + " "
               + (ColorAllocator.GetColor(a, r.tag).color + (Spaces(WidthTag - |t|) + t) + Escapes.Reset) + " "
               + (LevelFormatting(r.level) + [' ', Parser.LevelChar(r.level), ' '] + Escapes.Reset) + " "
               + Wrap.Wrapped(r.message, MessageIndent, width)
  {
    var color := ColorAllocator.GetColor(a, r.tag).color;
    var t := TagText(r.tag);
    var c := Parser.LevelChar(r.level);
    var time := Format.Format(r.time, WidthTimestamp, Some(Escapes.LogTimestamp), "center");
    var pid := Format.Format(r.procId, WidthPid, Some(Escapes.LogProcess), "center");
    var tag := Format.Format(t, WidthTag, Some(color), "right");
    var level := Format.Format([c], WidthLogLevel, Some(LevelFormatting(r.level)), "center");
    assert RenderRecord(r, a, width).text
           == time + " " + pid + " " + tag + " " + level + " " + Wrap.Wrapped(r.message, MessageIndent, width);
    ColorNonEmpty(a, r.tag);
    TimestampCell(r.time);
    PidCell(r.procId);
    TagCell(t, color);
    LevelFormattingNonEmpty(r.level);
    LevelCell(c, LevelFormatting(r.level));
    HeaderCells(time, pid, tag, level, Escapes.LogTimestamp + r.time + Escapes.Reset,
          Escapes.LogProcess + Format.Center(r.procId, WidthPid) + Escapes.Reset,
          color + (Spaces(WidthTag - |t|) + t) + Escapes.Reset,
          LevelFormatting(r.level) + [' ', c, ' '] + Escapes.Reset);
  }

  lemma {:induction false} ColorNonEmpty(a: ColorAllocator.Allocator, tag: string)
    requires ColorAllocator.Valid(a) && ColorAllocator.Colored(a)
    ensures ColorAllocator.GetColor(a, tag).color != []
  {
    if tag !in a.cache {
      assert ColorAllocator.GetColor(a, tag).color == a.palette[a.cursor];
    }
  }

  /** The timestamp is exactly twelve characters, so centring leaves it as
      it is. */
  lemma {:induction false} TimestampCentered(time: string)
    requires Parser.IsTime(time)
    ensures Format.Center(time, WidthTimestamp) == time
  {
  }

  /** A tag of at most 25 characters gets the missing columns as blanks in
      front. */
  lemma {:induction false} TagJustified(t: string)
    requires |t| <= WidthTag
    ensures Format.RightJustify(t, WidthTag) == Spaces(WidthTag - |t|) + t
  {
    var j := Format.RightJustify(t, WidthTag);
    assert j[..WidthTag - |t|] == Spaces(WidthTag - |t|);
    assert j == j[..WidthTag - |t|] + j[WidthTag - |t|..];
  }

  /** One letter centred in three columns has one blank on each side. */
  lemma {:induction false} LevelCentered(c: char)
    ensures Format.Center([c], WidthLogLevel) == [' ', c, ' ']
  {
    var j := Format.Center([c], WidthLogLevel);
    assert j[1..2] == [c];
    assert j == [j[0], j[1], j[2]];
  }

  lemma {:induction false} TimestampCell(time: string)
    requires Parser.IsTime(time)
    ensures Format.Format(time, WidthTimestamp, Some(Escapes.LogTimestamp), "center")
            == Escapes.LogTimestamp + time + Escapes.Reset
  {
    TimestampCentered(time);
  }

  /** The PID cell: the PID centred in seven columns. */
  lemma {:induction false} PidCell(procId: string)
    ensures Format.Format(procId, WidthPid, Some(Escapes.LogProcess), "center")
            == Escapes.LogProcess + Format.Center(procId, WidthPid) + Escapes.Reset
  {
  }

  /** The tag cell: the colour, then the tag right-aligned in 25 columns. */
  lemma {:induction false} TagCell(t: string, color: string)
    requires |t| <= WidthTag && color != []
    ensures Format.Format(t, WidthTag, Some(color), "right")
            == color + (Spaces(WidthTag - |t|) + t) + Escapes.Reset
  {
    TagJustified(t);
  }

  /** The level cell: one letter centred in three columns. */
  lemma {:induction false} LevelCell(c: char, esc: string)
    requires esc != []
    ensures Format.Format([c], WidthLogLevel, Some(esc), "center") == esc + [' ', c, ' '] + Escapes.Reset
  {
    LevelCentered(c);
  }

  /** The visible header is the rendered header with the escapes and
      resets taken out: the same four texts, cell for cell, as in
      `RenderedLayout`. */
  lemma {:induction false} VisibleHeaderLayout(r: Parser.Record)
    requires Parser.IsTime(r.time)
    ensures var t := TagText(r.tag);
            VisibleHeader(r)
            == r.time + " " + Format.Center(r.procId, WidthPid) + " "
               + (Spaces(WidthTag - |t|) + t) + " " + [' ', Parser.LevelChar(r.level), ' '] + " "
  {
    var t := TagText(r.tag);
    var c := Parser.LevelChar(r.level);
    var time := Format.Format(r.time, WidthTimestamp, Some(""), "center");
    var pid := Format.Format(r.procId, WidthPid, Some(""), "center");
    var tag := Format.Format(t, WidthTag, Some(""), "right");
    var level := Format.Format([c], WidthLogLevel, Some(""), "center");
    assert VisibleHeader(r) == time + " " + pid + " " + tag + " " + level + " ";
    TimestampCentered(r.time);
    Unpainted(r.time, WidthTimestamp, "center");
    Unpainted(r.procId, WidthPid, "center");
    TagJustified(t);
    Unpainted(t, WidthTag, "right");
    LevelCentered(c);
    Unpainted([c], WidthLogLevel, "center");
    HeaderCells(time, pid, tag, level, r.time, Format.Center(r.procId, WidthPid),
                Spaces(WidthTag - |t|) + t, [' ', c, ' ']);
  }

  /** A cell with an empty escape is the justified text alone. */
  lemma {:induction false} Unpainted(text: string, width: int, align: string)
    ensures Format.Format(text, width, Some(""), align) == Format.Justify(text, width, align)
  {
  }

  /** Rewrites the four cells of a header one at a time. Together with the
      per-cell lemmas above it keeps each layout proof small enough for the
      solver. */
  lemma HeaderCells(a: string, b: string, c: string, d: string, a': string, b': string, c': string, d': string)
    requires a == a' && b == b' && c == c' && d == d'
    ensures a + " " + b + " " + c + " " + d + " " == a' + " " + b' + " " + c' + " " + d' + " "
  {
  }

  /** With a PID of at most seven characters (adb pads it to five) the
      visible header is exactly `HEADER_SIZE` columns wide. */
  lemma {:induction false} VisibleHeaderWidth(r: Parser.Record)
    requires Parser.IsTime(r.time) && |r.procId| <= WidthPid
    ensures |VisibleHeader(r)| == HeaderSize
  {
    VisibleHeaderLayout(r);
  }

  /** Wrapping the message finishes: the loop in `wrap_text` only stops for
      a non-empty message when the line length is positive. A record the
      filter skips never reaches it. */
  ghost predicate WrapFinishes(line: string, filter: Option<string>, width: int) {
    match Parser.Parse(line)
    case None => true
    case Some(r) => SkippedAsWritten(filter, r.procId) || r.message == [] || width > MessageIndent
  }

  /** The same, under the corrected filter. */
  ghost predicate WrapFinishesCorrected(line: string, filter: Option<string>, width: int) {
    match Parser.Parse(line)
    case None => true
    case Some(r) => Skipped(filter, r.procId) || r.message == [] || width > MessageIndent
  }

  /** The output of one pass of the read loop and the next allocator. */
  datatype Step = Step(output: Option<string>, next: ColorAllocator.Allocator)

  /** Printing a kept record: its rendered text, and the allocator after
      its tag. */
  function Print(r: Parser.Record, a: ColorAllocator.Allocator, width: int): (res: Step)
    requires ColorAllocator.Valid(a)
    requires r.message == [] || width > MessageIndent
    ensures res.output == Some(RenderRecord(r, a, width).text)
    ensures res.next == ColorAllocator.GetColor(a, r.tag).next
    ensures ColorAllocator.Valid(res.next) && ColorAllocator.Grows(a.cache, res.next.cache)
    ensures ColorAllocator.Colored(a) ==> ColorAllocator.Colored(res.next)
  {
    ColorAllocator.ColoredPreserved(a, r.tag);
    var rendered := RenderRecord(r, a, width);
    Step(Some(rendered.text), rendered.next)
  }

  /** One pass of the read loop for `line`, as written: nothing for a line
      that is not a record or whose PID group the filter rejects, otherwise
      the rendered record. The colour allocator is consulted only for
      records that are printed. */
  function ProcessLine(line: string, filter: Option<string>, a: ColorAllocator.Allocator, width: int): (res: Step)
    requires ColorAllocator.Valid(a)
    requires WrapFinishes(line, filter, width)
    ensures res.output.Some? <==> Parser.Parse(line).Some? && !SkippedAsWritten(filter, Parser.Parse(line).value.procId)
    ensures res.output.None? ==> res.next == a
    ensures res.output.Some? ==> res.output.value == RenderRecord(Parser.Parse(line).value, a, width).text
    ensures res.output.Some? ==> res.next == ColorAllocator.GetColor(a, Parser.Parse(line).value.tag).next
    ensures ColorAllocator.Valid(res.next) && ColorAllocator.Grows(a.cache, res.next.cache)
    ensures ColorAllocator.Colored(a) ==> ColorAllocator.Colored(res.next)
  {
    match Parser.Parse(line)
    case None => Step(None, a)
    case Some(r) =>
      if SkippedAsWritten(filter, r.procId) then Step(None, a)
      else Print(r, a, width)
  }

  /** One pass of the read loop with the corrected filter: a record is
      printed exactly when no filter is set or the filter is the record's
      process ID without its padding. */
  function ProcessLineCorrected(line: string, filter: Option<string>, a: ColorAllocator.Allocator, width: int): (res: Step)
    requires ColorAllocator.Valid(a)
    requires WrapFinishesCorrected(line, filter, width)
    ensures res.output.Some? <==>
              && Parser.Parse(line).Some?
              && var p := Parser.Parse(line).value.procId;
                 !Format.Truthy(filter) || filter.value == p[LeadingSpace(p)..]
    ensures res.output.None? ==> res.next == a
    ensures res.output.Some? ==>
              && Parser.Parse(line).Some? && !Skipped(filter, Parser.Parse(line).value.procId)
              && res.output.value == RenderRecord(Parser.Parse(line).value, a, width).text
    ensures res.output.Some? ==> res.next == ColorAllocator.GetColor(a, Parser.Parse(line).value.tag).next
    ensures ColorAllocator.Valid(res.next) && ColorAllocator.Grows(a.cache, res.next.cache)
    ensures ColorAllocator.Colored(a) ==> ColorAllocator.Colored(res.next)
  {
    match Parser.Parse(line)
    case None => Step(None, a)
    case Some(r) =>
      FilterKeepsMatchingPid(line, filter);
      if Skipped(filter, r.procId) then Step(None, a)
      else Print(r, a, width)
  }

  /** What the read loop prints for a record it keeps: the layout of
      `RenderedLayout`, for the record the line was recognised as. */
  lemma {:induction false} PrintedLayout(line: string, filter: Option<string>, a: ColorAllocator.Allocator, width: int)
    requires ColorAllocator.Valid(a) && ColorAllocator.Colored(a)
    requires WrapFinishes(line, filter, width)
    requires ProcessLine(line, filter, a, width).output.Some?
    ensures var r := Parser.Parse(line).value;
            var t := TagText(r.tag);
            ProcessLine(line, filter, a, width).output.value
            == (Escapes.LogTimestamp + r.time + Escapes.Reset) + " "
               + (Escapes.LogProcess + Format.Center(r.procId, WidthPid) + Escapes.Reset) + " "
               + (ColorAllocator.GetColor(a, r.tag).color + (Spaces(WidthTag - |t|) + t) + Escapes.Reset) + " "
               + (LevelFormatting(r.level) + [' ', Parser.LevelChar(r.level), ' '] + Escapes.Reset) + " "
               + Wrap.Wrapped(r.message, MessageIndent, width)
  {
    Parser.ParseSound(line);
    RenderedLayout(Parser.Parse(line).value, a, width);
  }

  /** The finding at the level of the read loop: once `extractPID` has
      found a PID, no line is ever printed and the colours are never
      touched. */
  lemma {:induction false} ProcessLineFilteredPrintsNothing(line: string, pid: string, a: ColorAllocator.Allocator, width: int)
    requires ColorAllocator.Valid(a)
    requires pid != "" && !IsSpace(pid[0])
    ensures WrapFinishes(line, Some(pid), width)
    ensures ProcessLine(line, Some(pid), a, width) == Step(None, a)
  {
    if Parser.Parse(line).Some? {
      FilterAsWrittenSkipsAll(line, pid);
    }
  }

  /** Without a filter the two readings agree. */
  lemma {:induction false} ProcessLineUnfiltered(line: string, a: ColorAllocator.Allocator, width: int)
    requires ColorAllocator.Valid(a)
    requires WrapFinishes(line, None, width)
    ensures WrapFinishesCorrected(line, None, width)
    ensures ProcessLine(line, None, a, width) == ProcessLineCorrected(line, None, a, width)
  {
  }

  /** The padding of a recognised PID group is exactly what `strip()`
      removes: the stripped PID is its digits. */
  lemma {:induction false} StripPaddedPid(p: string, k: nat)
    requires 0 < k < |p| && AllSpace(p[..k]) && AllDigits(p[k..])
    ensures LeadingSpace(p) == k
    ensures Strip(p) == p[k..]
  {
    forall x | 0 <= x < k ensures IsSpace(p[x]) {
      assert p[..k][x] == p[x];
    }
    assert p[k] == p[k..][0];
    SpanUnique(p, 0, IsSpace, k);
    assert p[|p| - 1] == p[k..][|p| - 1 - k];
    assert TrailingEnd(p, k) == |p|;
  }

  /** The recorded finding, on the PID group: `procID[1:-1]` always
      starts with the padding the pattern demands, so as written it never
      equals a non-empty filter without leading whitespace (what
      `extractPID` returns, a field of `line.split()`). */
  lemma {:induction false} PaddedPidSkippedAsWritten(procId: string, k: nat, pid: string)
    requires 0 < k < |procId| && AllSpace(procId[..k]) && AllDigits(procId[k..])
    requires pid != "" && !IsSpace(pid[0])
    ensures SkippedAsWritten(Some(pid), procId)
  {
    assert procId[0] == procId[..k][0];
  }

  /** The corrected filter on the PID group: the record is kept exactly
      when no filter is set or the filter is the group's digits. */
  lemma {:induction false} PaddedPidKept(procId: string, k: nat, filter: Option<string>)
    requires 0 < k < |procId| && AllSpace(procId[..k]) && AllDigits(procId[k..])
    ensures !Skipped(filter, procId) <==> !Format.Truthy(filter) || filter.value == procId[k..]
  {
    StripPaddedPid(procId, k);
  }

  /** The finding for whole lines: with such a filter every recognised
      record is skipped. */
  lemma {:induction false} FilterAsWrittenSkipsAll(line: string, pid: string)
    requires Parser.Parse(line).Some?
    requires pid != "" && !IsSpace(pid[0])
    ensures SkippedAsWritten(Some(pid), Parser.Parse(line).value.procId)
  {
    Parser.ParseSound(line);
    var p := Parser.Parse(line).value.procId;
    var k :| 0 < k < |p| && AllSpace(p[..k]) && AllDigits(p[k..]);
    PaddedPidSkippedAsWritten(p, k, pid);
  }

  /** The corrected filter keeps a recognised record exactly when no filter
      is set or the filter is the record's process ID without its
      padding. */
  lemma {:induction false} FilterKeepsMatchingPid(line: string, filter: Option<string>)
    requires Parser.Parse(line).Some?
    ensures var p := Parser.Parse(line).value.procId;
            !Skipped(filter, p) <==> !Format.Truthy(filter) || filter.value == p[LeadingSpace(p)..]
  {
    Parser.ParseSound(line);
    var p := Parser.Parse(line).value.procId;
    var k :| 0 < k < |p| && AllSpace(p[..k]) && AllDigits(p[k..]);
    StripPaddedPid(p, k);
    PaddedPidKept(p, k, filter);
  }

  /** The documented line: it is recognised with the PID group "  123"
      and the message " hello world"; as written, filtering on "123"
      drops it and the read loop prints nothing, while the corrected filter
      keeps and prints it and still drops it for "999". Without a filter it
      is printed. */
  lemma {:induction false} DocumentedLineExample(line: string)
    requires line == "03-14 10:22:01.123 D/MyTag(  123): hello world"
    ensures Parser.Parse(line) == Some(Parser.Record("03-14", "10:22:01.123", Parser.Debug, "MyTag", "  123", " hello world"))
    ensures SkippedAsWritten(Some("123"), "  123")
    ensures !Skipped(Some("123"), "  123") && Skipped(Some("999"), "  123")
    ensures ProcessLine(line, None, ColorAllocator.Initial, 80).output.Some?
    ensures WrapFinishes(line, Some("123"), 80)
            && ProcessLine(line, Some("123"), ColorAllocator.Initial, 80).output.None?
    ensures ProcessLineCorrected(line, Some("123"), ColorAllocator.Initial, 80).output.Some?
  {
    DocumentedParse(line);
    DocumentedFilters();
    ColorAllocator.InitialValid();
    ProcessLineFilteredPrintsNothing(line, "123", ColorAllocator.Initial, 80);
  }

  // The lemmas below only split the documented line's string literals
  // into pieces, so that each literal equality stays within the solver's
  // budget.

  lemma {:induction false} DocumentedParse(line: string)
    requires line == "03-14 10:22:01.123 D/MyTag(  123): hello world"
    ensures Parser.Parse(line) == Some(Parser.Record("03-14", "10:22:01.123", Parser.Debug, "MyTag", "  123", " hello world"))
  {
    var r := Parser.Record("03-14", "10:22:01.123", Parser.Debug, "MyTag", "  123", " hello world");
    DocumentedRecord(r);
    DocumentedText(r, line);
    Parser.ParseUnparse(r);
  }

  lemma {:induction false} DocumentedFilters()
    ensures SkippedAsWritten(Some("123"), "  123")
    ensures !Skipped(Some("123"), "  123") && Skipped(Some("999"), "  123")
  {
    DocumentedPid("  123");
    StripPaddedPid("  123", 2);
  }

  lemma {:induction false} DocumentedText(r: Parser.Record, line: string)
    requires r == Parser.Record("03-14", "10:22:01.123", Parser.Debug, "MyTag", "  123", " hello world")
    requires line == "03-14 10:22:01.123 D/MyTag(  123): hello world"
    ensures line == Parser.Unparse(r)
  {
    var h := r.date + " " + r.time + " " + [Parser.LevelChar(r.level)] + "/";
    DocumentedHead(r.date, r.time, Parser.LevelChar(r.level), h);
    var g := h + r.tag + "(";
    DocumentedTag(h, r.tag, g);
    var p := g + r.procId + "):";
    DocumentedPidGroup(g, r.procId, p);
    DocumentedWhole(p, r.message, line);
  }

  lemma {:induction false} DocumentedHead(date: string, time: string, c: char, h: string)
    requires date == "03-14" && time == "10:22:01.123" && c == 'D'
    requires h == date + " " + time + " " + [c] + "/"
    ensures h == "03-14 10:22:01.123 D/"
  {
  }

  lemma {:induction false} DocumentedTag(h: string, tag: string, g: string)
    requires h == "03-14 10:22:01.123 D/" && tag == "MyTag" && g == h + tag + "("
    ensures g == "03-14 10:22:01.123 D/MyTag("
  {
  }

  lemma {:induction false} DocumentedPidGroup(g: string, pid: string, p: string)
    requires g == "03-14 10:22:01.123 D/MyTag(" && pid == "  123" && p == g + pid + "):"
    ensures p == "03-14 10:22:01.123 D/MyTag(  123):"
  {
  }

  lemma {:induction false} DocumentedWhole(p: string, message: string, line: string)
    requires p == "03-14 10:22:01.123 D/MyTag(  123):" && message == " hello world"
    requires line == "03-14 10:22:01.123 D/MyTag(  123): hello world"
    ensures line == p + message
  {
  }

  lemma {:induction false} DocumentedRecord(r: Parser.Record)
    requires r == Parser.Record("03-14", "10:22:01.123", Parser.Debug, "MyTag", "  123", " hello world")
    ensures Parser.WellFormed(r) && '(' !in r.message
  {
    DocumentedStamp(r.date, r.time);
    DocumentedPid(r.procId);
    DocumentedMessage(r.tag, r.message);
  }

  lemma {:induction false} DocumentedStamp(date: string, time: string)
    requires date == "03-14" && time == "10:22:01.123"
    ensures Parser.IsDate(date) && Parser.IsTime(time)
  {
  }

  lemma {:induction false} DocumentedPid(p: string)
    requires p == "  123"
    ensures AllSpace(p[..2]) && AllDigits(p[2..]) && p[2..] == "123"
    ensures Parser.IsPaddedPid(p)
  {
    assert p[..2] == "  " && p[2..] == "123";
  }

  lemma {:induction false} DocumentedMessage(tag: string, message: string)
    requires tag == "MyTag" && message == " hello world"
    ensures NoNewline(tag) && NoNewline(message) && '(' !in message
  {
  }
}
