/** `wrap_text` (coloredlogcat.py:86-95): fixed-width chunking of a
    message onto an output buffer, continuation lines indented. The
    `cStringIO` buffer is a string and each `write` an append. */
module Wrap {
  import opened Text

  /** What `wrap_text` writes between two chunks: `"\n" + " " * indent`. */
  function Separator(indent: nat): (sep: string)
    ensures |sep| == indent + 1 && sep[0] == '\n' && AllBlank(sep[1..])
  {
    "\n" + Spaces(indent)
  }

  /** The reference split: consecutive pieces of `n` characters, the last
      one possibly shorter. */
  function Chunks(text: string, n: nat): (cs: seq<string>)
    requires n > 0
    decreases |text|
  {
    if |text| == 0 then []
    else if |text| <= n then [text]
    else [text[..n]] + Chunks(text[n..], n)
  }

  /** The pieces glued back together. */
  function Concat(cs: seq<string>): string {
    if cs == [] then "" else cs[0] + Concat(cs[1..])
  }

  /** The pieces with `sep` between each two, none after the last. */
  function Join(cs: seq<string>, sep: string): string {
    if cs == [] then ""
    else if |cs| == 1 then cs[0]
    else cs[0] + sep + Join(cs[1..], sep)
  }

  /** The chunks glue back to the text. */
  lemma {:induction false} ChunksConcat(text: string, n: nat)
    requires n > 0
    ensures Concat(Chunks(text, n)) == text
    decreases |text|
  {
    if |text| > n {
      var rest := Chunks(text[n..], n);
      ChunksConcat(text[n..], n);
      assert Chunks(text, n)[1..] == rest;
      assert text == text[..n] + text[n..];
    } else if |text| > 0 {
      assert Concat([text]) == text + Concat([]);
    }
  }

  /** Every chunk is non-empty and at most `n` long; every chunk but the
      last is exactly `n` long. */
  lemma {:induction false} ChunksLengths(text: string, n: nat)
    requires n > 0
    ensures forall i :: 0 <= i < |Chunks(text, n)| ==> 0 < |Chunks(text, n)[i]| <= n
    ensures forall i :: 0 <= i < |Chunks(text, n)| - 1 ==> |Chunks(text, n)[i]| == n
    decreases |text|
  {
    var cs := Chunks(text, n);
    if |text| > n {
      var rest := Chunks(text[n..], n);
      ChunksLengths(text[n..], n);
      assert cs == [text[..n]] + rest;
      forall i | 0 <= i < |cs|
        ensures 0 < |cs[i]| <= n && (i < |cs| - 1 ==> |cs[i]| == n)
      {
        if i > 0 {
          assert cs[i] == rest[i - 1];
          assert 0 < |rest[i - 1]| <= n;
          assert i - 1 < |rest| - 1 ==> |rest[i - 1]| == n;
        } else {
          assert cs[0] == text[..n];
        }
      }
    }
  }

  /** A text without newlines has chunks without newlines. */
  lemma {:induction false} ChunksNoNewline(text: string, n: nat)
    requires n > 0 && NoNewline(text)
    ensures forall i :: 0 <= i < |Chunks(text, n)| ==> NoNewline(Chunks(text, n)[i])
    decreases |text|
  {
    if |text| > n {
      var cs := Chunks(text, n);
      var rest := Chunks(text[n..], n);
      ChunksNoNewline(text[n..], n);
      assert forall i :: 1 <= i < |cs| ==> cs[i] == rest[i - 1];
    }
  }

  /** What `wrap_text` appends for `text`, with continuation lines
      indented by `indent` and `width - indent` characters per line. */
  function Wrapped(text: string, indent: nat, width: int): string
    requires |text| == 0 || width - indent > 0
  {
    if |text| == 0 then "" else Join(Chunks(text, width - indent), Separator(indent))
  }

  /** One iteration of the loop: a text longer than a line is its first
      line, a separator, and the wrapped rest; a shorter one is itself. */
  lemma WrappedStep(text: string, indent: nat, width: int)
    requires width - indent > 0 && |text| > 0
    ensures |text| <= width - indent ==> Wrapped(text, indent, width) == text
    ensures |text| > width - indent ==>
              Wrapped(text, indent, width)
              == text[..width - indent] + Separator(indent) + Wrapped(text[width - indent..], indent, width)
  {
  }

  /** What one pass of the loop writes, followed by the wrapping of what
      is left, is the wrapping of the text from `pos`. */
  lemma {:induction false} WrapIteration(out: string, text: string, pos: nat, next: nat, indent: nat, width: int)
    requires width - indent > 0 && pos < |text|
    requires next == if pos + (width - indent) < |text| then pos + (width - indent) else |text|
    ensures next < |text| ==>
              out + text[pos..next] + Separator(indent) + Wrapped(text[next..], indent, width)
              == out + Wrapped(text[pos..], indent, width)
    ensures next == |text| ==>
              out + text[pos..next] + Wrapped(text[next..], indent, width)
              == out + Wrapped(text[pos..], indent, width)
  {
    if next < |text| {
      WrapIterationMore(text, pos, next, indent, width);
      var piece := text[pos..next];
      var sep := Separator(indent);
      var rest := Wrapped(text[next..], indent, width);
      assert out + piece + sep + rest == out + (piece + sep + rest);
    } else {
      WrapIterationLast(text, pos, indent, width);
      assert text[pos..next] == text[pos..];
    }
  }

  /** A pass that leaves text behind writes a full line and a separator. */
  lemma {:induction false} WrapIterationMore(text: string, pos: nat, next: nat, indent: nat, width: int)
    requires width - indent > 0 && next == pos + (width - indent) < |text|
    ensures text[pos..next] + Separator(indent) + Wrapped(text[next..], indent, width)
            == Wrapped(text[pos..], indent, width)
  {
    var n := width - indent;
    WrappedStep(text[pos..], indent, width);
    assert text[pos..][..n] == text[pos..next];
    assert text[pos..][n..] == text[next..];
  }

  /** The last pass writes the rest of the text and nothing else. */
  lemma {:induction false} WrapIterationLast(text: string, pos: nat, indent: nat, width: int)
    requires width - indent > 0 && pos < |text| <= pos + (width - indent)
    ensures Wrapped(text[|text|..], indent, width) == ""
    ensures Wrapped(text[pos..], indent, width) == text[pos..]
  {
    WrappedStep(text[pos..], indent, width);
  }

  /** `wrap_text(text, buf, indent, width)`. The loop stops only when
      `pos` reaches the end, so for a non-empty text it needs a positive
      line length; with `width - indent <= 0` the script loops forever,
      appending a separator to the buffer on every pass. */
  method WrapText(text: string, buf: string, indent: nat, width: int) returns (out: string)
    requires |text| == 0 || width - indent > 0
    ensures out == buf + Wrapped(text, indent, width)
    ensures |text| == 0 ==> out == buf
  {
    out := buf;
    assert text[0..] == text;
    var textLength := |text|;
    var wrapLength := width - indent;
    var pos := 0;
    while pos < textLength
      invariant 0 <= pos <= textLength
      invariant pos < textLength ==> wrapLength > 0
      invariant out + Wrapped(text[pos..], indent, width) == buf + Wrapped(text, indent, width)
      decreases textLength - pos
    {
      var next := if pos + wrapLength < textLength then pos + wrapLength else textLength;
      WrapIteration(out, text, pos, next, indent, width);
      out := out + text[pos..next];
      if next < textLength {
        out := out + Separator(indent);
      }
      pos := next;
    }
    assert text[pos..] == [];
  }

  /** The wrapped text ends with the last chunk of the text: no separator
      follows the last line. */
  lemma {:induction false} WrappedTail(text: string, indent: nat, width: int)
    requires width - indent > 0 && |text| > 0
    ensures var cs := Chunks(text, width - indent);
            var w := Wrapped(text, indent, width);
            |cs| > 0 && |cs[|cs| - 1]| <= |w| && w[|w| - |cs[|cs| - 1]|..] == cs[|cs| - 1]
    decreases |text|
  {
    var n := width - indent;
    WrappedStep(text, indent, width);
    if |text| > n {
      var rest := text[n..];
      WrappedTail(rest, indent, width);
      var cs := Chunks(text, n);
      assert cs == [text[..n]] + Chunks(rest, n);
      var last := cs[|cs| - 1];
      var w' := Wrapped(rest, indent, width);
      var w := text[..n] + Separator(indent) + w';
      assert w[|w| - |last|..] == w'[|w'| - |last|..];
    }
  }

  /** Removes the indentation that follows each newline: a `'\n'` and up
      to `indent` characters after it are dropped. */
  function Unwrap(s: string, indent: nat): string
    decreases |s|
  {
    if s == [] then ""
    else if s[0] == '\n' then
      var skip := if indent < |s| - 1 then indent else |s| - 1;
      Unwrap(s[1 + skip..], indent)
    else [s[0]] + Unwrap(s[1..], indent)
  }

  lemma {:induction false} UnwrapPlain(a: string, b: string, indent: nat)
    requires NoNewline(a)
    ensures Unwrap(a + b, indent) == a + Unwrap(b, indent)
    decreases |a|
  {
    if a == [] {
      assert a + b == b;
    } else {
      assert (a + b)[0] == a[0] && (a + b)[1..] == a[1..] + b;
      UnwrapPlain(a[1..], b, indent);
      assert [a[0]] + a[1..] == a;
    }
  }

  lemma {:induction false} UnwrapJoin(cs: seq<string>, indent: nat)
    requires forall i :: 0 <= i < |cs| ==> NoNewline(cs[i])
    ensures Unwrap(Join(cs, Separator(indent)), indent) == Concat(cs)
  {
    if |cs| == 1 {
      UnwrapPlain(cs[0], "", indent);
      assert cs[0] + "" == cs[0];
      assert Concat(cs) == cs[0] + Concat([]);
    } else if |cs| > 1 {
      var sep := Separator(indent);
      var rest := Join(cs[1..], sep);
      assert Join(cs, sep) == cs[0] + (sep + rest);
      UnwrapPlain(cs[0], sep + rest, indent);
      assert (sep + rest)[0] == '\n';
      assert (sep + rest)[1 + indent..] == rest;
      UnwrapJoin(cs[1..], indent);
    }
  }

  /** Deleting what `wrap_text` inserts gives the message back: for text
      without newlines (every message the record pattern accepts), the
      separators are the only newlines in the output and removing them
      with their indentation restores the text. */
  lemma {:induction false} WrappedRoundTrip(text: string, indent: nat, width: int)
    requires NoNewline(text)
    requires |text| == 0 || width - indent > 0
    ensures Unwrap(Wrapped(text, indent, width), indent) == text
  {
    if |text| > 0 {
      var cs := Chunks(text, width - indent);
      ChunksNoNewline(text, width - indent);
      UnwrapJoin(cs, indent);
      ChunksConcat(text, width - indent);
    }
  }

  /** The documented example: "abcdefgh" with indent 2 and width 5. */
  lemma WrapExample()
    ensures Wrapped("abcdefgh", 2, 5) == "abc\n  def\n  gh"
  {
    var sep := Separator(2);
    assert Spaces(2) == "  ";
    assert sep == "\n  ";
    assert "abcdefgh"[..3] == "abc" && "abcdefgh"[3..] == "defgh";
    assert "defgh"[..3] == "def" && "defgh"[3..] == "gh";
    var cs := Chunks("abcdefgh", 3);
    assert Chunks("gh", 3) == ["gh"];
    assert Chunks("defgh", 3) == ["def", "gh"];
    assert cs == ["abc", "def", "gh"];
    assert cs[1..] == ["def", "gh"] && cs[1..][1..] == ["gh"];
    assert Join(["def", "gh"], sep) == "def" + sep + "gh";
    assert Join(cs, sep) == "abc" + sep + ("def" + sep + "gh");
  }
}
