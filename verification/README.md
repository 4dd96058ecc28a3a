# coloredlogcat in Dafny

A model of `coloredlogcat.py`. The script reads Android `adb logcat -v time` output line by line and re-prints each log record with coloured, fixed-width columns. Four pieces do the work, and the model covers all four together with the per-record assembly that joins them:

- the record pattern `PATTERN` and how `main` applies it;
- the column formatter `format`;
- the tag colour allocator `get_color`, with its cache and palette cursor;
- the line wrapper `wrap_text`.

The script is Python 2, so strings are byte strings. `\d` means `[0-9]`. `\s` and `str.strip()` both mean the six characters space, tab, line feed, carriage return, vertical tab and form feed.

Modules, one per file:

- `Text` (`text.dfy`): the character classes and `str.strip()`. It also has `s[-n:]` and decimal rendering of a number.
- `Escapes` (`escapes.dfy`): the ANSI escape constants, with their real bytes, and `LOG_TAG % code`.
- `Format` (`format.dfy`): `str.center` (with CPython's rule for odd padding), `str.rjust` and `format`.
- `ColorAllocator` (`color_allocator.dfy`): `get_color`. The module-level `tag_color_cache` and `color_index` become an explicit `Allocator` value, which goes in and comes back out. `GetColors` threads that value through a sequence of tags.
- `Wrap` (`wrap.dfy`): `wrap_text`, written as a loop over a string buffer. It is checked against a reference chunking, `Chunks`/`Join`, and against `Unwrap`, which undoes it.
- `Parser` (`parser.dfy`): the regular expression, written as a parser.
  - Trailing line feed: `$` may match before a final line feed and `.` never matches one. So the parser works on the line with at most one trailing `'\n'` removed.
  - Greedy tag: the greedy `(.*)` tag means the match with the longest tag wins. So the parser searches tag ends from the end of the line backwards.
  - `ParseCorrect` proves the parser equals the pattern. It reports a match exactly when one exists, and it reports the one with the longest tag.
- `Render` (`render.dfy`): the body of the read loop for one line.
  - It applies the PID filter. `ProcessLine` applies it as written; `ProcessLineCorrected` applies the corrected filter (see "## Findings").
  - It builds the timestamp, PID, tag and level cells, then appends the wrapped message. `Header` builds the cells from their escapes; with empty escapes it gives `VisibleHeader`, what the terminal shows.
  - `get_color` is keyed on the raw tag, and it is called only for records that get printed.

## Model

| member | source | states |
|---|---|---|
| Text.Strip | coloredlogcat.py:152 | `tag.strip()` is empty exactly when the tag is all whitespace. Otherwise it is the infix that starts and ends with non-whitespace and has only whitespace around it. |
| Text.LastN | coloredlogcat.py:152 | For `n > 0`, `s[-n:]` is a suffix of `s` of length `min(n, len(s))`. |
| Escapes.TagEscape | coloredlogcat.py:41 | `LOG_TAG % code`: the fixed lead-in, the decimal digits of `code`, then `m`. |
| Escapes.TagEscapeInjective | coloredlogcat.py:41 | `LOG_TAG % code` gives different escapes for different palette codes. |
| Format.Center | coloredlogcat.py:70 | `str.center` returns `max(width, len)` characters. The text sits at CPython's left padding with blanks on both sides, and the two paddings differ by at most one. |
| Format.RightJustify | coloredlogcat.py:72 | `str.rjust` returns `max(width, len)` characters: blanks followed by the text. |
| Format.Justify | coloredlogcat.py:69-72 | Only "center" and "right" pad, to exactly `max(width, len)` columns. "left" and every other value return the text unchanged. |
| Format.Format | coloredlogcat.py:68-75 | With a non-empty escape, the result is escape + justified text + `RESET`. With `None` or "", it is the justified text alone. |
| Format.FormatVisiblePart | coloredlogcat.py:73-75 | Removing the escape and `RESET` leaves the same visible part as a call without an escape. |
| Format.FormatExamples | coloredlogcat.py:68-75 | "OK" in six columns is "  OK  " centred, "    OK" right-aligned, and "OK" left-aligned. |
| ColorAllocator.InitialValid | coloredlogcat.py:62-66 | The start state has a 15-entry palette, cursor 0, an empty cache, and pairwise different palette escapes. |
| ColorAllocator.TagPaletteDistinct | coloredlogcat.py:62 | The strictly descending `TAG_COLORS` codes give pairwise different escapes. |
| ColorAllocator.GetColor | coloredlogcat.py:77-84 | On a cache hit: the cached colour, with nothing changed. On a miss: the palette entry at the cursor, and the cursor advances modulo 15. Either way the tag ends up cached with the returned colour, existing entries are kept, and the state stays valid. |
| ColorAllocator.ColoredInitial | coloredlogcat.py:62 | The start state's palette holds only non-empty escapes. |
| ColorAllocator.ColoredPreserved | coloredlogcat.py:77-84 | From a valid state whose colours are all non-empty escapes, handing out a colour keeps them so. |
| ColorAllocator.GetColorIdempotent | coloredlogcat.py:77-84 | A second call for the same tag returns the same colour and leaves cache and cursor unchanged. |
| ColorAllocator.ColorsStable | coloredlogcat.py:77-84 | After a sequence of calls, every tag seen is cached with the colour it was given. |
| ColorAllocator.FreshTagColor | coloredlogcat.py:80-83 | The i-th of a run of distinct uncached tags gets the palette entry i places after the cursor, wrapping around. |
| ColorAllocator.FreshTagsDistinctColors | coloredlogcat.py:80-83 | Up to 15 distinct uncached tags get pairwise different colours. |
| ColorAllocator.SixteenthTagReusesFirstColor | coloredlogcat.py:81-82 | The 16th distinct uncached tag gets the colour of the first one. |
| ColorAllocator.StartupDistinctColors | coloredlogcat.py:62-84 | From start-up, the first 15 distinct tags get 15 different colours. |
| Wrap.Separator | coloredlogcat.py:94 | `"\n%s" % (" " * indent)`: a line feed followed by exactly `indent` blanks. |
| Wrap.Wrapped | coloredlogcat.py:86-95 | What `wrap_text` appends to the buffer: the pieces of `width - indent` characters joined by the separator, or nothing for an empty text. `WrapText` proves the loop appends exactly this. |
| Wrap.ChunksConcat | coloredlogcat.py:90-94 | The pieces `wrap_text` writes, glued together, are the text. |
| Wrap.ChunksLengths | coloredlogcat.py:91-92 | Every piece is non-empty and at most `width - indent` long. Every piece but the last is exactly that long. |
| Wrap.WrapIteration | coloredlogcat.py:91-94 | One pass of the loop writes a piece, plus a separator unless the text is used up. Those writes, followed by the wrapping of the rest, give the wrapping of the text from `pos`. |
| Wrap.WrapText | coloredlogcat.py:86-95 | The buffer keeps its old contents and gains exactly the pieces joined by "\n" + `indent` spaces. Empty text appends nothing. A non-empty text needs `width - indent > 0`, because otherwise the loop never ends. |
| Wrap.WrappedTail | coloredlogcat.py:92-94 | The output ends with the last piece, so no separator follows the last line. |
| Wrap.WrappedRoundTrip | coloredlogcat.py:86-95 | For text without line feeds, deleting each separator gives the text back. |
| Wrap.WrapExample | coloredlogcat.py:86-95 | "abcdefgh" with indent 2 and width 5 wraps to "abc\n  def\n  gh". |
| Parser.LevelOf | coloredlogcat.py:32 | A level letter is recognised exactly when it is one of V, D, I, W, E. |
| Parser.LevelRoundTrip | coloredlogcat.py:53-59 | Every level has a letter, and that letter maps back to it. So the `LOG_LEVEL_FORMATTING` lookup is total. |
| Parser.Body | coloredlogcat.py:32 | `$` may match before one final line feed: a line ending in `'\n'` loses exactly that one line feed, and a line without one is kept whole. |
| Parser.SplitAt | coloredlogcat.py:32 | A successful split at a tag end leaves a tag without line feeds, then `(` + whitespace + digits + `):` + a message without line feeds. |
| Parser.SplitAtComplete | coloredlogcat.py:32 | Every way to write the rest of the line as a PID group and a message is found at that tag end. |
| Parser.LastWhereMaximal | coloredlogcat.py:32 | The backward search for the greedy tag finds the last tag end that splits. |
| Parser.Parse | coloredlogcat.py:142-145 | `retag.match(line)` followed by `procID[1:-1]`: the groups of the longest-tag match, or `None` when the pattern does not match. `ParseCorrect` proves it equals the pattern. |
| Parser.ParseSound | coloredlogcat.py:142-145 | A recognised line is matched by the pattern, with the reported groups. |
| Parser.ParseComplete | coloredlogcat.py:142-145 | When the pattern matches, the parser reports a match, with a tag at least as long. |
| Parser.MatchUnique | coloredlogcat.py:32 | Two matches whose tags have the same length are the same match. |
| Parser.ParseCorrect | coloredlogcat.py:142-145 | The parser reports a match exactly when the pattern matches, and it reports the one with the longest tag. |
| Parser.ParseUnparse | coloredlogcat.py:142-145 | A well-formed record whose message has no `(` is read back from its own text, with or without the trailing line feed. |
| Parser.GreedyTagExample | coloredlogcat.py:32 | In "… I/a( 1):b( 2):c", the greedy tag takes "a( 1):b". |
| Render.LevelFormatting | coloredlogcat.py:53-59 | `LOG_LEVEL_FORMATTING`: the escape of each of the five levels the pattern admits. |
| Render.LevelFormattingNonEmpty | coloredlogcat.py:53-59 | Every level's escape is non-empty, so `format` always wraps the level cell in it. |
| Render.TagText | coloredlogcat.py:152 | The tag cell text is the last `min(25, len)` characters of the stripped tag. |
| Render.Header | coloredlogcat.py:150-153 | The four cell writes: timestamp centred in 12, PID group centred in 7, stripped tag right-aligned in 25, level letter centred in 3, each formatted with its escape and followed by a space. `RenderedLayout` and `VisibleHeaderLayout` spell it out. |
| Render.RenderRecord | coloredlogcat.py:149-154 | The allocator is consulted once, with the raw (unstripped) tag. Its text is given by `RenderedLayout`. |
| Render.RenderedLayout | coloredlogcat.py:149-154 | A rendered record is five parts, each header cell followed by a space: the timestamp between its escape and `RESET`; the PID centred in 7; the tag colour and the tag right-aligned in exactly 25 columns; the level escape and the letter centred in 3; the wrapped message with indent 52. |
| Render.TimestampCell | coloredlogcat.py:150 | The 12-character timestamp fills its 12 columns exactly, without padding. |
| Render.PidCell | coloredlogcat.py:151 | The PID is centred in 7 columns between its escape and `RESET`. |
| Render.TagCell | coloredlogcat.py:152 | A tag of at most 25 characters is right-aligned to exactly 25 columns after its colour. |
| Render.LevelCell | coloredlogcat.py:153 | The level letter is centred in 3 columns. |
| Render.VisibleHeaderLayout | coloredlogcat.py:149-153 | The header with its escapes removed is the time, the PID centred in 7, the tag right-aligned in 25 and the letter centred in 3, each followed by a space: the same visible texts as in `RenderedLayout`. |
| Render.VisibleHeaderWidth | coloredlogcat.py:46-50 | With a PID of at most 7 characters, the visible header is exactly `HEADER_SIZE` = 51 columns. |
| Render.SkippedAsWritten | coloredlogcat.py:146 | `pid and procID != pid`: the filter is truthy and differs from the PID group, padding included. `FilterAsWrittenSkipsAll` shows it skips every recognised record. |
| Render.ProcessLine | coloredlogcat.py:142-154 | As written: a line produces output exactly when it matches and its PID group, padding included, is not rejected by `pid and procID != pid`. The output is the rendered record. A line that produces no output leaves the allocator unchanged. A printed line advances the allocator as `get_color` on its raw tag does. A step keeps every allocator colour a non-empty escape. |
| Render.PrintedLayout | coloredlogcat.py:142-155 | A printed line is the recognised record's four escaped cells, each followed by a space, then its message wrapped at indent 52. |
| Render.ProcessLineFilteredPrintsNothing | coloredlogcat.py:142-147 | As written: with a filter as `extractPID` returns it (a non-empty, whitespace-free `split()` field), no line produces output and the allocator is never touched, whatever the terminal width. |
| Render.ProcessLineCorrected | coloredlogcat.py:142-154 | With the corrected filter: a line produces output exactly when it matches and either no filter is set or the filter equals the PID digits without the padding. The output is the rendered record, and the allocator changes as in `ProcessLine`. |
| Render.ProcessLineUnfiltered | coloredlogcat.py:146 | Without a filter, the as-written and the corrected pass produce the same output and the same allocator. |
| Render.StripPaddedPid | coloredlogcat.py:145 | For a PID group of whitespace then digits, `strip()` leaves exactly the digits. |
| Render.PaddedPidSkippedAsWritten | coloredlogcat.py:146-147 | As written, on the PID group: a group of padding followed by digits is never equal to a filter that is non-empty and does not start with whitespace, so the record is skipped. |
| Render.PaddedPidKept | coloredlogcat.py:146-147 | Corrected, on the PID group: the record is kept exactly when no filter is set, or the filter equals the digits after the padding. |
| Render.FilterAsWrittenSkipsAll | coloredlogcat.py:146-147 | As written: a non-empty filter that does not start with whitespace skips every recognised record. |
| Render.FilterKeepsMatchingPid | coloredlogcat.py:146-147 | Corrected: a record is kept exactly when no filter is set, or the filter equals the record's PID digits. |
| Render.DocumentedLineExample | coloredlogcat.py:142-154 | "03-14 10:22:01.123 D/MyTag(  123): hello world" parses with PID group "  123" and message " hello world". Filtering on "123" drops it as written and the loop prints nothing; the corrected filter keeps it and the corrected loop prints it, and the corrected filter drops it for "999". Without a filter it is printed. |

## Left out

- `extractPID` runs `adb shell ps | grep` through a shell. The filter value it would return is an `Option<string>` parameter.
- The terminal size comes from `fcntl.ioctl`. `width` is a parameter.
- The read loop is I/O and is not modelled: choosing stdin or `adb logcat`, `readline`, `KeyboardInterrupt`, the catch-all `print err`, `print` with its final line feed, and closing the buffer. `ProcessLine` models one pass of the loop body. As written, the loop never stops at end of input, because `readline` keeps returning "". The `proc.terminate()` branch is dead code, since `proc` is always `None`.
- `cStringIO` buffers are strings, and writes are appends. The `wraped_text = buf.getvalue()` assignment at the end of `wrap_text` is never used, so it is left out.
- ColorAllocator.GetColor: treats every cached tag as a hit. The source tests `if not color`, so a cached empty colour would be handed out again. The model's cache only ever holds non-empty escapes (`ColorAllocator.ColoredInitial`, `ColorAllocator.ColoredPreserved`), so the two agree on every reachable state.
- The allocator's palette is stored as the 15 escapes `LOG_TAG % TAG_COLORS[i]` rather than as the codes. Each escape is built by `Escapes.TagEscape`.
- Wrap.WrapText: requires `width - indent > 0` for non-empty text. For such inputs the script loops forever, appending a separator to the buffer on every pass, so they are not given a meaning.
- Render.RenderRecord: requires a terminal wider than 52 columns when the message is non-empty. On a narrower terminal the script loops forever in `wrap_text`, appending a separator to the buffer on every pass.
- Render.VisibleHeaderWidth: covers only PIDs of at most 7 characters. `adb logcat -v time` pads PIDs to 5 columns, so `(  123)` gives the 5-character group `"  123"`. A PID group wider than 7 widens its cell, because `str.center` does not truncate.
- Five-digit PIDs: `(12345)` has no whitespace after `(`, so `\s+` rejects such a line and it is never printed. The model keeps this behaviour: `IsPaddedPid` demands at least one whitespace character.

## Findings

| source | as written | input that shows it | evidently intended | confidence | as-written member | corrected member |
|---|---|---|---|---|---|---|
| coloredlogcat.py:146-147 | `procID != pid` compares the PID group contents with `extractPID`'s result. The group contents still carry the whitespace the pattern demands (`"  123"`), and `extractPID` returns a whitespace-free `split()` field (`"123"`). | `coloredlogcat.py com.example`, where `extractPID` finds PID `"123"`, with the line `03-14 10:22:01.123 D/MyTag(  123): hello world`. The record is skipped; every record is skipped. | Compare the PID digits, so that records of the selected process are printed. | not executed; high | Render.ProcessLineFilteredPrintsNothing | Render.ProcessLineCorrected |

`Render.SkippedAsWritten` is the filter as written, and `Render.ProcessLine` uses it. `Render.Skipped` is the corrected filter: it strips the PID group first. `Render.ProcessLineCorrected` uses it. `Render.FilterAsWrittenSkipsAll` and `Render.FilterKeepsMatchingPid` state the two filters for one recognised line.
