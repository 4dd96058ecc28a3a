/** `get_color` (coloredlogcat.py:77-84) with its globals made explicit:
    the read-only palette `TAG_COLORS`, the cache `tag_color_cache` and the
    cursor `color_index` form one state value that every call takes and
    returns. */
module ColorAllocator {
  import opened Text
  import Escapes

  /** `TAG_COLORS`: the 256-colour codes handed out to tags, in order. */
  const TagColors: seq<nat> := [226, 220, 213, 203, 199, 195, 190, 160, 105, 87, 75, 39, 13, 11, 10]

  /** `len(TAG_COLORS)`. */
  const PaletteSize: nat := 15

  /** The palette (as the escapes `LOG_TAG % code`, in palette order), the
      cache from raw tag to colour escape, and the palette cursor. */
  datatype Allocator = Allocator(palette: seq<string>, cache: map<string, string>, cursor: nat)

  /** What the script keeps true of its globals: the palette has its
      fifteen entries and the cursor points into it. */
  predicate Valid(a: Allocator) {
    |a.palette| == PaletteSize && a.cursor < PaletteSize
  }

  /** `LOG_TAG % code` for every code, in order. */
  function TagPalette(codes: seq<nat>): (p: seq<string>)
    ensures |p| == |codes|
    ensures forall k :: 0 <= k < |codes| ==> p[k] == Escapes.TagEscape(codes[k])
  {
    seq(|codes|, k requires 0 <= k < |codes| => Escapes.TagEscape(codes[k]))
  }

  /** The state at start-up: empty cache, cursor at the first colour. */
  const Initial: Allocator := Allocator(TagPalette(TagColors), map[], 0)

  /** The result of one `get_color` call: the colour and the next state. */
  datatype Assigned = Assigned(color: string, next: Allocator)

  /** Every entry of `before` is still in `after` with the same colour. */
  ghost predicate Grows(before: map<string, string>, after: map<string, string>) {
    forall t :: t in before ==> t in after && after[t] == before[t]
  }

  /** `get_color(tag)`. A cached tag gets its cached colour and nothing
      changes; a new tag gets the colour under the cursor, which then
      advances modulo the palette size. */
  function GetColor(a: Allocator, tag: string): (res: Assigned)
    requires Valid(a)
    ensures tag in a.cache ==> res.color == a.cache[tag] && res.next == a
    ensures tag !in a.cache ==>
              && res.color == a.palette[a.cursor]
              && res.next.cursor == (a.cursor + 1) % PaletteSize
              && res.next.cache.Keys == a.cache.Keys + {tag}
    ensures tag in res.next.cache && res.next.cache[tag] == res.color
    ensures Grows(a.cache, res.next.cache)
    ensures Valid(res.next) && res.next.palette == a.palette
  {
    if tag in a.cache then Assigned(a.cache[tag], a)
    else
      var color := a.palette[a.cursor];
      Assigned(color, Allocator(a.palette, a.cache[tag := color], (a.cursor + 1) % PaletteSize))
  }

  /** Asking twice for the same tag gives the same colour, and the second
      call changes nothing. */
  lemma GetColorIdempotent(a: Allocator, tag: string)
    requires Valid(a)
    ensures var first := GetColor(a, tag);
            var second := GetColor(first.next, tag);
            second.color == first.color && second.next == first.next
  {
  }

  /** Every colour the allocator can hand out is a non-empty escape, so
      `format` always wraps the tag in it. On such states `GetColor`'s
      `tag in cache` test agrees with the source's `if not color`. */
  ghost predicate Colored(a: Allocator) {
    (forall i :: 0 <= i < |a.palette| ==> a.palette[i] != [])
    && (forall t :: t in a.cache ==> a.cache[t] != [])
  }

  /** The start state has only escapes in its palette. */
  lemma {:induction false} ColoredInitial()
    ensures Colored(Initial)
  {
    var p := Initial.palette;
    forall i | 0 <= i < |p| ensures p[i] != [] {
      assert p[i] == Escapes.TagEscape(TagColors[i]);
    }
  }

  /** Handing out a colour keeps every colour an escape. */
  lemma {:induction false} ColoredPreserved(a: Allocator, tag: string)
    requires Valid(a)
    ensures Colored(a) ==> Colored(GetColor(a, tag).next)
  {
    var next := GetColor(a, tag).next;
    if Colored(a) {
      forall t | t in next.cache ensures next.cache[t] != [] {
        if t != tag {
          assert next.cache[t] == a.cache[t];
        }
      }
    }
  }

  /** Colours for a run of tags, one `get_color` call after another. */
  datatype Run = Run(colors: seq<string>, last: Allocator)

  function GetColors(a: Allocator, tags: seq<string>): (res: Run)
    requires Valid(a)
    ensures |res.colors| == |tags|
    ensures Valid(res.last) && res.last.palette == a.palette
    ensures Grows(a.cache, res.last.cache)
    decreases |tags|
  {
    if tags == [] then Run([], a)
    else
      var first := GetColor(a, tags[0]);
      var rest := GetColors(first.next, tags[1..]);
      Run([first.color] + rest.colors, rest.last)
  }

  /** Any tag seen in a run keeps the colour it got until the end of the
      run: the cache is never overwritten. */
  lemma {:induction false} ColorsStable(a: Allocator, tags: seq<string>, i: nat)
    requires Valid(a)
    requires i < |tags|
    ensures var run := GetColors(a, tags);
            tags[i] in run.last.cache && run.last.cache[tags[i]] == run.colors[i]
    decreases |tags|
  {
    var first := GetColor(a, tags[0]);
    if i > 0 {
      ColorsStable(first.next, tags[1..], i - 1);
    }
  }

  /** No element occurs twice. */
  predicate Distinct<T(==)>(s: seq<T>) {
    s == [] || (s[0] !in s[1..] && Distinct(s[1..]))
  }

  lemma {:induction false} DistinctPairwise<T>(s: seq<T>, i: nat, j: nat)
    requires Distinct(s) && i < j < |s|
    ensures s[i] != s[j]
  {
    if i == 0 {
      assert s[j] in s[1..];
    } else {
      DistinctPairwise(s[1..], i - 1, j - 1);
    }
  }

  /** Position `i` after the cursor is position `i - 1` after the next
      cursor. */
  lemma ColorShift(a: Allocator, b: Allocator, i: nat)
    requires Valid(a) && Valid(b) && b.palette == a.palette
    requires b.cursor == (a.cursor + 1) % PaletteSize && i > 0
    ensures b.palette[(b.cursor + (i - 1)) % PaletteSize] == a.palette[(a.cursor + i) % PaletteSize]
  {
    assert (b.cursor + (i - 1)) % PaletteSize == (a.cursor + i) % PaletteSize;
  }

  /** After the first of a run of distinct new tags is served, the rest
      are still distinct and new. */
  lemma {:induction false} RestStaysFresh(a: Allocator, tags: seq<string>)
    requires Valid(a) && tags != []
    requires Distinct(tags)
    requires forall i :: 0 <= i < |tags| ==> tags[i] !in a.cache
    ensures var next := GetColor(a, tags[0]).next;
            Distinct(tags[1..]) && forall k :: 0 <= k < |tags[1..]| ==> tags[1..][k] !in next.cache
  {
    var tl := tags[1..];
    forall k | 0 <= k < |tl|
      ensures tl[k] != tags[0]
    {
      assert tl[k] in tl;
    }
  }

  /** Fresh tags are served from the palette in order, starting at the
      cursor and wrapping around: the `i`-th new tag of a run gets the
      colour `i` places after the cursor. */
  lemma {:induction false} FreshTagColor(a: Allocator, tags: seq<string>, i: nat)
    requires Valid(a)
    requires Distinct(tags)
    requires forall i :: 0 <= i < |tags| ==> tags[i] !in a.cache
    requires i < |tags|
    ensures GetColors(a, tags).colors[i] == a.palette[(a.cursor + i) % PaletteSize]
    decreases |tags|
  {
    if i == 0 {
      FreshHead(a, tags);
    } else {
      var first := GetColor(a, tags[0]);
      RestStaysFresh(a, tags);
      FreshTagColor(first.next, tags[1..], i - 1);
      FreshShift(a, tags, i);
    }
  }

  /** The first new tag of a run gets the colour at the cursor. */
  lemma {:induction false} FreshHead(a: Allocator, tags: seq<string>)
    requires Valid(a) && tags != [] && tags[0] !in a.cache
    ensures GetColors(a, tags).colors[0] == a.palette[(a.cursor + 0) % PaletteSize]
  {
    assert GetColors(a, tags).colors[0] == GetColor(a, tags[0]).color;
  }

  /** The colour `i - 1` places after the next cursor, given to the rest
      of the run, is `i` places after this cursor. */
  lemma {:induction false} FreshShift(a: Allocator, tags: seq<string>, i: nat)
    requires Valid(a) && 0 < i < |tags| && tags[0] !in a.cache
    requires var next := GetColor(a, tags[0]).next;
             GetColors(next, tags[1..]).colors[i - 1] == next.palette[(next.cursor + (i - 1)) % PaletteSize]
    ensures GetColors(a, tags).colors[i] == a.palette[(a.cursor + i) % PaletteSize]
  {
    var first := GetColor(a, tags[0]);
    assert GetColors(a, tags).colors == [first.color] + GetColors(first.next, tags[1..]).colors;
    ColorShift(a, first.next, i);
  }

  lemma CursorDistinct(c: nat, i: nat, j: nat)
    requires i < j < PaletteSize
    ensures (c + i) % PaletteSize != (c + j) % PaletteSize
  {
  }

  /** The palette entries are pairwise different. */
  predicate DistinctPalette(a: Allocator) {
    forall p, q :: 0 <= p < q < |a.palette| ==> a.palette[p] != a.palette[q]
  }

  lemma {:induction false} DescendingPairwise(s: seq<nat>, i: nat, j: nat)
    requires forall k :: 0 < k < |s| ==> s[k] < s[k - 1]
    requires i < j < |s|
    ensures s[j] < s[i]
    decreases j - i
  {
    if j > i + 1 {
      DescendingPairwise(s, i, j - 1);
    }
  }

  /** `TAG_COLORS` is strictly descending, so no code occurs twice. */
  lemma TagColorsDescending()
    ensures forall k :: 0 < k < |TagColors| ==> TagColors[k] < TagColors[k - 1]
  {
  }

  /** Distinct codes give distinct escapes. */
  lemma {:induction false} TagPaletteDistinct(codes: seq<nat>)
    requires forall k :: 0 < k < |codes| ==> codes[k] < codes[k - 1]
    ensures var p := TagPalette(codes);
            forall i, j :: 0 <= i < j < |p| ==> p[i] != p[j]
  {
    var p := TagPalette(codes);
    forall i, j | 0 <= i < j < |p|
      ensures p[i] != p[j]
    {
      DescendingPairwise(codes, i, j);
      if p[i] == p[j] {
        Escapes.TagEscapeInjective(codes[i], codes[j]);
      }
    }
  }

  /** The start-up state is valid and its palette has fifteen different
      colours. */
  lemma {:induction false} InitialValid()
    ensures Valid(Initial) && DistinctPalette(Initial)
  {
    TagColorsDescending();
    TagPaletteDistinct(TagColors);
  }

  /** With a palette of distinct codes, up to fifteen new tags get
      pairwise different colours. */
  lemma {:induction false} FreshTagsDistinctColors(a: Allocator, tags: seq<string>)
    requires Valid(a) && DistinctPalette(a)
    requires |tags| <= PaletteSize
    requires Distinct(tags)
    requires forall i :: 0 <= i < |tags| ==> tags[i] !in a.cache
    ensures var run := GetColors(a, tags);
            forall i, j :: 0 <= i < j < |tags| ==> run.colors[i] != run.colors[j]
  {
    var run := GetColors(a, tags);
    forall i, j | 0 <= i < j < |tags|
      ensures run.colors[i] != run.colors[j]
    {
      FreshTagColor(a, tags, i);
      FreshTagColor(a, tags, j);
      CursorDistinct(a.cursor, i, j);
    }
  }

  /** The sixteenth new tag gets the colour of the first: the palette has
      wrapped around. */
  lemma {:induction false} SixteenthTagReusesFirstColor(a: Allocator, tags: seq<string>)
    requires Valid(a)
    requires |tags| > PaletteSize
    requires Distinct(tags)
    requires forall i :: 0 <= i < |tags| ==> tags[i] !in a.cache
    ensures var run := GetColors(a, tags);
            run.colors[PaletteSize] == run.colors[0]
  {
    FreshTagColor(a, tags, 0);
    FreshTagColor(a, tags, PaletteSize);
    assert (a.cursor + PaletteSize) % PaletteSize == (a.cursor + 0) % PaletteSize;
  }

  /** From start-up, the first fifteen distinct tags all get different
      colours. */
  lemma StartupDistinctColors(tags: seq<string>)
    requires |tags| <= PaletteSize
    requires Distinct(tags)
    ensures var run := GetColors(Initial, tags);
            forall i, j :: 0 <= i < j < |tags| ==> run.colors[i] != run.colors[j]
  {
    InitialValid();
    FreshTagsDistinctColors(Initial, tags);
  }
}
