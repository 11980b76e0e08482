/** The command-line driver's own logic (video2bas.go): reading the canvas
    size out of the traced documents' `viewBox`, and what the stages compose
    to. The output files are in module Segments. */
module Driver {
  import opened Wrappers
  import opened Text
  import opened Types
  import opened Hex
  import opened PathFlip
  import opened Script
  import opened SvgJson

  /** `generateBas`'s canvas size: the `viewBox` split at single spaces,
      every part read with `strconv.Atoi` (a part that does not parse counts
      as 0, and missing parts stay 0), and the third and fourth numbers
      multiplied by 10. More than four parts index past the four slots, which
      panics: `None`. */
  function CanvasSize(viewBox: string): (r: Option<(int, int)>)
    ensures r.Some? <==> |Split(viewBox, ' ')| <= 4
    ensures r.Some? && |Split(viewBox, ' ')| < 4 ==> r.value.1 == 0
    ensures r.Some? && |Split(viewBox, ' ')| < 3 ==> r.value.0 == 0
    ensures var parts := Split(viewBox, ' ');
      r.Some? && |parts| >= 3 ==>
        && (Atoi(parts[2]).None? ==> r.value.0 == 0)
        && (Atoi(parts[2]).Some? ==> r.value.0 == 10 * Atoi(parts[2]).value)
    ensures var parts := Split(viewBox, ' ');
      r.Some? && |parts| == 4 ==>
        && (Atoi(parts[3]).None? ==> r.value.1 == 0)
        && (Atoi(parts[3]).Some? ==> r.value.1 == 10 * Atoi(parts[3]).value)
    ensures r.Some? ==> r.value.0 % 10 == 0 && r.value.1 % 10 == 0
  {
    var parts := Split(viewBox, ' ');
    if |parts| > 4 then None
    else Some((Slot(parts, 2) * 10, Slot(parts, 3) * 10))
  }

  /** Slot `k` of the four-integer array after the parsing loop. */
  function Slot(parts: seq<string>, k: nat): int
  {
    if k < |parts| then Atoi(parts[k]).GetOr(0) else 0
  }

  /** Printed integers contain no space. */
  lemma NoSpaceInInt(i: int)
    ensures ' ' !in IntToString(i)
  {
    var digits := NatToString(if i < 0 then -i else i);
    assert AllDigits(digits);
  }

  /** A view box "x y w h" written as `%d %d %d %d` gives a canvas ten times
      its width and height. */
  lemma CanvasSizeOfViewBox(x: int, y: int, w: int, h: int)
    ensures CanvasSize(IntToString(x) + " " + IntToString(y) + " " + IntToString(w) + " " + IntToString(h))
            == Some((10 * w, 10 * h))
  {
    var parts := [IntToString(x), IntToString(y), IntToString(w), IntToString(h)];
    var box := IntToString(x) + " " + IntToString(y) + " " + IntToString(w) + " " + IntToString(h);
    assert Split(box, ' ') == parts by {
      NoSpaceInInt(x);
      NoSpaceInInt(y);
      NoSpaceInInt(w);
      NoSpaceInInt(h);
      var a, b, c, d := IntToString(x), IntToString(y), IntToString(w), IntToString(h);
      assert [c, d][1..] == [d];
      assert Join([c, d], " ") == c + " " + d;
      assert [b, c, d][1..] == [c, d];
      assert Join([b, c, d], " ") == b + " " + c + " " + d;
      assert parts[1..] == [b, c, d];
      assert Join(parts, " ") == box;
      SplitJoin(parts, ' ');
    }
    AtoiIntToString(w);
    AtoiIntToString(h);
    assert Slot(parts, 2) == w && Slot(parts, 3) == h;
  }

  /** End to end for one traced frame: the script of its parsed layers is
      empty exactly when every layer is black, and all-black frames always
      produce their (empty) script. */
  lemma BlackFramesLeaveNoScript(frame: FrameSvg, extractPaths: string -> seq<string>, viewBoxW: int, viewBoxH: int,
                                 framerate: real, startTime: real, fmt: real -> string)
    requires framerate != 0.0
    ensures var r := GenerateBasText(ParseFrame(frame, extractPaths), viewBoxW, viewBoxH, framerate, startTime, fmt);
      r.Success? ==> (r.value == "" <==> forall i | 0 <= i < |frame.layers| :: IsBlack(frame.layers[i].color))
    ensures (forall i | 0 <= i < |frame.layers| :: IsBlack(frame.layers[i].color)) ==>
      GenerateBasText(ParseFrame(frame, extractPaths), viewBoxW, viewBoxH, framerate, startTime, fmt) == Success("")
  {
    var fd := ParseFrame(frame, extractPaths);
    assert AllBlack(fd.data) <==> forall i | 0 <= i < |frame.layers| :: IsBlack(frame.layers[i].color) by {
      forall i | 0 <= i < |frame.layers|
        ensures fd.data[i].color == Black <==> IsBlack(frame.layers[i].color)
      {
        assert fd.data[i] == ParseLayer(frame.layers[i], extractPaths);
      }
    }
  }

  predicate IsBlack(c: Rgba)
  {
    c.r == 0 && c.g == 0 && c.b == 0
  }

  /** End to end for one layer: the name of its block reads back as the frame
      number and a colour that `hexToRGB` decodes to the layer's colour. */
  lemma BlockNameIdentifiesLayer(frame: FrameSvg, extractPaths: string -> seq<string>, i: nat)
    requires i < |frame.layers|
    ensures var d := ParseFrame(frame, extractPaths).data[i];
      var parts := Split(BlockName(frame.frameIndex, d.color), '_');
      && |parts| == 2
      && Atoi(parts[0]) == Some(frame.frameIndex)
      && HexToRgb(parts[1]) == (frame.layers[i].color.r, frame.layers[i].color.g, frame.layers[i].color.b)
  {
    var d := ParseFrame(frame, extractPaths).data[i];
    assert d == ParseLayer(frame.layers[i], extractPaths);
    NoUnderscoreInHex(d.color);
    BlockNameRoundTrip(frame.frameIndex, d.color);
  }

  lemma NoUnderscoreInHex(s: string)
    requires forall k | 0 <= k < |s| :: s[k] in UpperHexDigits
    ensures '_' !in s
  {
    forall k | 0 <= k < |s|
      ensures s[k] != '_'
    {
      assert s[k] in UpperHexDigits;
    }
  }
}
