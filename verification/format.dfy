/** `format` (coloredlogcat.py:68-75): justify a column's text and wrap it
    in a colour escape. */
module Format {
  import opened Text
  import Escapes

  /** Left padding CPython's `str.center` uses when it has `marg > 0`
      columns to fill: `marg / 2 + (marg & width & 1)`, so odd padding
      goes left when `width` is odd and right when it is even. */
  function CenterLeftPad(marg: nat, width: int): (l: nat)
    ensures l <= marg
    ensures l == marg / 2 || l == marg - marg / 2
    ensures marg % 2 == 1 && width % 2 == 1 ==> l == marg - marg / 2
    ensures marg % 2 == 1 && width % 2 == 0 ==> l == marg / 2
  {
    marg / 2 + (if marg % 2 == 1 && width % 2 == 1 then 1 else 0)
  }

  /** `str.center(width)`. */
  function Center(text: string, width: int): (r: string)
    ensures |r| == Max(width, |text|)
    ensures var l := CenterLeftPad(|r| - |text|, width);
            r[l..l + |text|] == text && AllBlank(r[..l]) && AllBlank(r[l + |text|..])
    ensures var l := CenterLeftPad(|r| - |text|, width);
            -1 <= (|r| - |text| - l) - l <= 1
  {
    if |text| >= width then text
    else
      var marg := width - |text|;
      var l := CenterLeftPad(marg, width);
      var r := Spaces(l) + text + Spaces(marg - l);
      assert r[..l] == Spaces(l) && r[l + |text|..] == Spaces(marg - l);
      r
  }

  /** `str.rjust(width)`. */
  function RightJustify(text: string, width: int): (r: string)
    ensures |r| == Max(width, |text|)
    ensures r[|r| - |text|..] == text && AllBlank(r[..|r| - |text|])
  {
    if |text| >= width then text
    else
      var r := Spaces(width - |text|) + text;
      assert r[..|r| - |text|] == Spaces(width - |text|);
      r
  }

  /** The justification step of `format`: only the alignments "center"
      and "right" pad; "left" (the default) and every other string leave
      the text as it is. */
  function Justify(text: string, width: int, align: string): (r: string)
    ensures align == "center" ==> r == Center(text, width)
    ensures align == "right" ==> r == RightJustify(text, width)
    ensures align == "center" || align == "right" ==> |r| == Max(width, |text|)
    ensures align != "center" && align != "right" ==> r == text
  {
    if align == "center" then Center(text, width)
    else if align == "right" then RightJustify(text, width)
    else text
  }

  /** Python truthiness of the optional escape: `None` and "" are false. */
  predicate Truthy(prop: Option<string>) {
    prop.Some? && prop.value != ""
  }

  /** `format(text, width, format_prop, align)`: the escape and the reset
      surround the justified text and do not count towards `width`. */
  function Format(text: string, width: int, prop: Option<string>, align: string): (r: string)
    ensures Truthy(prop) ==>
              && |r| == |prop.value| + |Justify(text, width, align)| + |Escapes.Reset|
              && r[..|prop.value|] == prop.value
              && r[|prop.value|..|r| - |Escapes.Reset|] == Justify(text, width, align)
              && r[|r| - |Escapes.Reset|..] == Escapes.Reset
    ensures !Truthy(prop) ==> r == Justify(text, width, align)
  {
    var j := Justify(text, width, align);
    if Truthy(prop) then
      var r := prop.value + j + Escapes.Reset;
      assert r[|prop.value|..|r| - |Escapes.Reset|] == j;
      r
    else j
  }

  /** The visible part of a formatted cell does not depend on the escape:
      removing a truthy escape and the reset gives back what an undecorated
      call produces. */
  lemma FormatVisiblePart(text: string, width: int, prop: string, align: string)
    requires prop != ""
    ensures var r := Format(text, width, Some(prop), align);
            |r| == |prop| + |Format(text, width, None, align)| + |Escapes.Reset|
            && r[|prop|..|r| - |Escapes.Reset|] == Format(text, width, None, align)
  {
  }

  /** The documented examples: "OK" in six columns. */
  lemma FormatExamples()
    ensures Format("OK", 6, None, "center") == "  OK  "
    ensures Format("OK", 6, None, "right") == "    OK"
    ensures Format("OK", 6, None, "left") == "OK"
  {
    assert Spaces(2) == "  ";
    assert Spaces(4) == "    ";
  }
}
