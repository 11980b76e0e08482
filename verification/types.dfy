/** The records that flow through the pipeline (type/types.go), with Go's
    image types reduced to what the core reads from them. */
module Types {
  import opened Wrappers

  /** An 8-bit colour channel: `uint8`, or `RGBA() >> 8` of a 16-bit one. */
  type Channel = x: int | 0 <= x < 256

  /** One pixel as three 8-bit channels (the source's `Pixel`). */
  datatype Pixel = Pixel(r: Channel, g: Channel, b: Channel)

  /** Go's `color.RGBA`: a palette entry. */
  datatype Rgba = Rgba(r: Channel, g: Channel, b: Channel, a: Channel)

  /** A decoded frame image: its bounds and its pixels in row-major order
      (y outer, x inner), the order every loop of the core visits them in. */
  datatype Image = Image(width: nat, height: nat, pixels: seq<Pixel>)

  /** `Frame`: a frame number and an image, which may be nil. */
  datatype Frame = Frame(index: int, image: Option<Image>)

  /** An 8-bit grey mask (`*image.Gray`) with one value per pixel, row-major. */
  datatype Mask = Mask(width: nat, height: nat, values: seq<int>)

  /** `ColorLayer`: the palette colour a layer stands for and its mask, where
      0 (black) marks "this colour" and 255 (white) marks "another colour". */
  datatype ColorLayer = ColorLayer(color: Rgba, mask: Mask)

  /** `FrameLayers`: one frame's layers, one per palette entry. */
  datatype FrameLayers = FrameLayers(index: int, layers: seq<ColorLayer>)

  /** One traced layer: its colour and the SVG document the tracer produced.
      The source's `LayerSVG` carries only a colour index, while `ParseFrame`
      reads a colour from it; the model gives the layer its colour directly. */
  datatype LayerSvg = LayerSvg(color: Rgba, svgData: string)

  /** `FrameSVG`: the traced documents of one frame. */
  datatype FrameSvg = FrameSvg(frameIndex: int, layers: seq<LayerSvg>)

  /** One entry of `FrameData.Data`: the map with keys "color" and "pathdata". */
  datatype LayerData = LayerData(color: string, pathData: string)

  /** `FrameData`: the normalised layers of one frame. */
  datatype FrameData = FrameData(frameIndex: int, data: seq<LayerData>)

  /** The error values the core returns. */
  datatype Error = NoFrames | NilImage | EmptyPalette
}
