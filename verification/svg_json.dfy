/** The normaliser (svg2json/svg2json.go): each traced layer becomes a pair
    of a six-digit colour and the layer's path data. Reading the `d`
    attributes out of an SVG document (`extractPaths`, an XML decode) is a
    parameter of the model. */
module SvgJson {
  import opened Text
  import opened Types
  import opened Hex
  import opened Batch

  /** One layer of `ParseFrame`: the colour as upper-case `RRGGBB`, which
      reads back as the layer's red, green and blue and is "000000" exactly
      for black, and the extracted paths joined by single spaces. */
  function ParseLayer(layer: LayerSvg, extractPaths: string -> seq<string>): (d: LayerData)
    ensures |d.color| == 6
    ensures HexToRgb(d.color) == (layer.color.r, layer.color.g, layer.color.b)
    ensures d.color == "000000" <==> layer.color.r == 0 && layer.color.g == 0 && layer.color.b == 0
    ensures d.pathData == Join(extractPaths(layer.svgData), " ")
    ensures |extractPaths(layer.svgData)| == 0 ==> d.pathData == ""
    ensures |extractPaths(layer.svgData)| == 1 ==> d.pathData == extractPaths(layer.svgData)[0]
  {
    HexToRgbOfToHex(layer.color);
    ToHexIsBlack(layer.color);
    LayerData(ToHex(layer.color), Join(extractPaths(layer.svgData), " "))
  }

  /** When no extracted path contains a space, splitting a layer's path data
      at spaces gives back exactly the extracted paths. */
  lemma PathDataSplits(layer: LayerSvg, extractPaths: string -> seq<string>)
    requires |extractPaths(layer.svgData)| >= 1
    requires forall k | 0 <= k < |extractPaths(layer.svgData)| :: ' ' !in extractPaths(layer.svgData)[k]
    ensures Split(ParseLayer(layer, extractPaths).pathData, ' ') == extractPaths(layer.svgData)
  {
    SplitJoin(extractPaths(layer.svgData), ' ');
  }

  /** `ParseFrame`: one entry per layer, in layer order, under the same frame
      number. */
  function ParseFrame(frame: FrameSvg, extractPaths: string -> seq<string>): (fd: FrameData)
    ensures fd.frameIndex == frame.frameIndex
    ensures |fd.data| == |frame.layers|
    ensures forall i | 0 <= i < |fd.data| :: fd.data[i] == ParseLayer(frame.layers[i], extractPaths)
  {
    FrameData(frame.frameIndex, seq(|frame.layers|, i requires 0 <= i < |frame.layers| => ParseLayer(frame.layers[i], extractPaths)))
  }

  /** `ParseAllFrameWithParallel` (and `ParseAllFrame`, which fixes the bound
      at 4): entry `i` is the parse of frame `i`, whatever order the workers
      finish in. */
  method ParseAllFrameWithParallel(frames: seq<FrameSvg>, extractPaths: string -> seq<string>, order: seq<nat>)
    returns (results: seq<FrameData>)
    requires IsCompletionOrder(order, |frames|)
    ensures |results| == |frames|
    ensures forall i | 0 <= i < |frames| ::
      && results[i].frameIndex == frames[i].frameIndex
      && results[i] == ParseFrame(frames[i], extractPaths)
  {
    results := RunAll(frames, (f: FrameSvg) => ParseFrame(f, extractPaths), order);
  }
}
