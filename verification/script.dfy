/** The script generator (json2bas/json2bas.go): every non-black layer of a
    frame becomes one block of the danmaku script, a `path` definition with
    the flipped path data followed by four timed `set` steps. */
module Script {
  import opened Wrappers
  import opened Text
  import opened Types
  import opened PathLexer
  import opened PathFlip
  import opened Batch

  /** The colour of layers that are left out of the script. */
  const Black: string := "000000"

  /** `fmt.Sprintf("%d_%s", frameNum, color)`. */
  function BlockName(frameIndex: int, color: string): string
  {
    IntToString(frameIndex) + "_" + color
  }

  /** The four delays of a block: when the frame starts, relative to
      `startTime`, then 0, then how long one frame lasts, then 0; each is the
      floor of its exact value in milliseconds. A frame rate of 0 divides by
      zero in floating point and is excluded. */
  function Delays(frameIndex: int, framerate: real, startTime: real): (d: seq<int>)
    requires framerate != 0.0
    ensures |d| == 4 && d[1] == 0 && d[3] == 0
    ensures d[0] as real <= frameIndex as real / framerate * 1000.0 - startTime < d[0] as real + 1.0
    ensures d[2] as real <= 1000.0 / framerate < d[2] as real + 1.0
  {
    var displayTime := 1000.0 / framerate;
    var startOffset := frameIndex as real / framerate * 1000.0 - startTime;
    [startOffset.Floor, (displayTime * 0.0).Floor, displayTime.Floor, (displayTime * 0.0).Floor]
  }

  /** The text of one block, character for character as the source's
      template prints it. */
  function RenderBlock(name: string, pathData: string, viewBoxW: int, viewBoxH: int, color: string, delays: seq<int>): string
    requires |delays| == 4
  {
    "\nlet p" + name + " = path{d = \"" + pathData + "\" viewBox=\"0 0 "
    + IntToString(viewBoxW) + " " + IntToString(viewBoxH)
    + "\" width = 100% fillColor = 0x" + color + " alpha = 0\nborderWidth = 15\n    borderColor = 0x" + color
    + "\n}\nset p" + name + " {} " + IntToString(delays[0])
    + "ms\nthen set p" + name + " {alpha = 1} " + IntToString(delays[1])
    + "ms\nthen set p" + name + " {} " + IntToString(delays[2])
    + "ms\nthen set p" + name + " {alpha = 0} " + IntToString(delays[3]) + "ms\n"
  }

  /** The block of one layer: its path flipped in a view box of height
      `viewBoxH` (0 meaning the default), while the header prints `viewBoxW`
      and `viewBoxH` as given. Fails as the flip does. */
  function LayerBlock(frameIndex: int, layer: LayerData, viewBoxW: int, viewBoxH: int,
                      framerate: real, startTime: real, fmt: real -> string): (r: Result<string, FlipError>)
    requires framerate != 0.0
    ensures r.Success? <==> Flippable(Tokens(layer.pathData), None, 0)
    ensures r.Success? ==> |r.value| > 0 && r.value[0] == '\n'
  {
    match FlipSvgPath(layer.pathData, viewBoxH, fmt)
    case Failure(e) => Failure(e)
    case Success(path) =>
      Success(RenderBlock(BlockName(frameIndex, layer.color), path, viewBoxW, viewBoxH, layer.color,
                          Delays(frameIndex, framerate, startTime)))
  }

  /** The layer loop of `GenerateBasText`: blocks in layer order, black layers
      skipped; the first layer whose flip fails stops the loop. */
  function Blocks(frameIndex: int, layers: seq<LayerData>, viewBoxW: int, viewBoxH: int,
                  framerate: real, startTime: real, fmt: real -> string): Result<string, FlipError>
    requires framerate != 0.0
    decreases |layers|
  {
    if |layers| == 0 then Success("")
    else if layers[0].color == Black then Blocks(frameIndex, layers[1..], viewBoxW, viewBoxH, framerate, startTime, fmt)
    else Then(LayerBlock(frameIndex, layers[0], viewBoxW, viewBoxH, framerate, startTime, fmt),
              Blocks(frameIndex, layers[1..], viewBoxW, viewBoxH, framerate, startTime, fmt))
  }

  /** The text of `first` followed by that of `rest`; the first failure wins. */
  function Then(first: Result<string, FlipError>, rest: Result<string, FlipError>): Result<string, FlipError>
  {
    match first
    case Failure(e) => Failure(e)
    case Success(b) =>
      match rest
      case Failure(e) => Failure(e)
      case Success(t) => Success(b + t)
  }

  /** Every non-black layer's path can be flipped. */
  predicate AllFlippable(layers: seq<LayerData>)
  {
    forall i | 0 <= i < |layers| :: layers[i].color != Black ==> Flippable(Tokens(layers[i].pathData), None, 0)
  }

  predicate AllBlack(layers: seq<LayerData>)
  {
    forall i | 0 <= i < |layers| :: layers[i].color == Black
  }

  lemma {:induction false} BlocksOutcome(frameIndex: int, layers: seq<LayerData>, viewBoxW: int, viewBoxH: int,
                                         framerate: real, startTime: real, fmt: real -> string)
    requires framerate != 0.0
    ensures Blocks(frameIndex, layers, viewBoxW, viewBoxH, framerate, startTime, fmt).Success? <==> AllFlippable(layers)
    ensures Blocks(frameIndex, layers, viewBoxW, viewBoxH, framerate, startTime, fmt).Success? ==>
      (Blocks(frameIndex, layers, viewBoxW, viewBoxH, framerate, startTime, fmt).value == "" <==> AllBlack(layers))
    decreases |layers|
  {
    if |layers| > 0 {
      BlocksOutcome(frameIndex, layers[1..], viewBoxW, viewBoxH, framerate, startTime, fmt);
      assert AllFlippable(layers) <==>
        (layers[0].color != Black ==> Flippable(Tokens(layers[0].pathData), None, 0)) && AllFlippable(layers[1..]) by {
        if AllFlippable(layers[1..]) && (layers[0].color != Black ==> Flippable(Tokens(layers[0].pathData), None, 0)) {
          forall i | 0 <= i < |layers| && layers[i].color != Black
            ensures Flippable(Tokens(layers[i].pathData), None, 0)
          {
            if i > 0 {
              assert layers[i] == layers[1..][i - 1];
            }
          }
        }
      }
      assert AllBlack(layers) <==> layers[0].color == Black && AllBlack(layers[1..]) by {
        if layers[0].color == Black && AllBlack(layers[1..]) {
          forall i | 0 <= i < |layers|
            ensures layers[i].color == Black
          {
            if i > 0 {
              assert layers[i] == layers[1..][i - 1];
            }
          }
        }
      }
    }
  }

  /** `GenerateBasText`. It finishes exactly when every non-black layer's
      path can be flipped, and then prints nothing exactly when every layer
      is black. */
  function GenerateBasText(frame: FrameData, viewBoxW: int, viewBoxH: int,
                           framerate: real, startTime: real, fmt: real -> string): (r: Result<string, FlipError>)
    requires framerate != 0.0
    ensures r.Success? <==> AllFlippable(frame.data)
    ensures r.Success? ==> (r.value == "" <==> AllBlack(frame.data))
  {
    BlocksOutcome(frame.frameIndex, frame.data, viewBoxW, viewBoxH, framerate, startTime, fmt);
    Blocks(frame.frameIndex, frame.data, viewBoxW, viewBoxH, framerate, startTime, fmt)
  }

  /** The script of a frame is the script of its first layers followed by the
      script of the rest, and it fails with the first failure among them: one
      block per layer, in layer order. */
  lemma {:induction false} BlocksAppend(frameIndex: int, a: seq<LayerData>, b: seq<LayerData>, viewBoxW: int, viewBoxH: int,
                                        framerate: real, startTime: real, fmt: real -> string)
    requires framerate != 0.0
    ensures Blocks(frameIndex, a + b, viewBoxW, viewBoxH, framerate, startTime, fmt)
            == Then(Blocks(frameIndex, a, viewBoxW, viewBoxH, framerate, startTime, fmt),
                    Blocks(frameIndex, b, viewBoxW, viewBoxH, framerate, startTime, fmt))
    decreases |a|
  {
    var rb := Blocks(frameIndex, b, viewBoxW, viewBoxH, framerate, startTime, fmt);
    if |a| == 0 {
      assert a + b == b;
      assert rb.Success? ==> "" + rb.value == rb.value;
    } else {
      BlocksAppend(frameIndex, a[1..], b, viewBoxW, viewBoxH, framerate, startTime, fmt);
      ConsAppend(a, b);
      if a[0].color != Black {
        ThenAssociative(LayerBlock(frameIndex, a[0], viewBoxW, viewBoxH, framerate, startTime, fmt),
                        Blocks(frameIndex, a[1..], viewBoxW, viewBoxH, framerate, startTime, fmt), rb);
      }
    }
  }

  lemma ThenAssociative(x: Result<string, FlipError>, y: Result<string, FlipError>, z: Result<string, FlipError>)
    ensures Then(x, Then(y, z)) == Then(Then(x, y), z)
  {
    if x.Success? && y.Success? && z.Success? {
      assert x.value + (y.value + z.value) == (x.value + y.value) + z.value;
    }
  }

  lemma ConsAppend<T>(a: seq<T>, b: seq<T>)
    requires |a| > 0
    ensures (a + b)[0] == a[0] && (a + b)[1..] == a[1..] + b
  {
  }

  /** A black layer adds nothing, and a single other layer adds exactly its
      block: together with `BlocksAppend`, the script is the concatenation
      of the non-black layers' blocks in order. */
  lemma SingleLayer(frameIndex: int, layer: LayerData, viewBoxW: int, viewBoxH: int,
                    framerate: real, startTime: real, fmt: real -> string)
    requires framerate != 0.0
    requires layer.color != Black ==> Flippable(Tokens(layer.pathData), None, 0)
    ensures layer.color == Black ==> Blocks(frameIndex, [layer], viewBoxW, viewBoxH, framerate, startTime, fmt) == Success("")
    ensures layer.color != Black ==>
      Blocks(frameIndex, [layer], viewBoxW, viewBoxH, framerate, startTime, fmt)
      == Success(RenderBlock(BlockName(frameIndex, layer.color),
                             FlipSvgPath(layer.pathData, viewBoxH, fmt).value,
                             viewBoxW, viewBoxH, layer.color, Delays(frameIndex, framerate, startTime)))
  {
    assert [layer][1..] == [];
    if layer.color != Black {
      var blk := LayerBlock(frameIndex, layer, viewBoxW, viewBoxH, framerate, startTime, fmt).value;
      assert blk + "" == blk;
    }
  }

  /** Printed integers contain no underscore. */
  lemma {:induction false} NoUnderscoreInNat(n: nat)
    ensures '_' !in NatToString(n)
  {
    if n >= 10 {
      NoUnderscoreInNat(n / 10);
    }
  }

  /** A block name can be read back: splitting it at the underscore gives the
      frame number, which `Atoi` recovers, and the colour. */
  lemma BlockNameRoundTrip(frameIndex: int, color: string)
    requires '_' !in color
    ensures Split(BlockName(frameIndex, color), '_') == [IntToString(frameIndex), color]
    ensures Atoi(Split(BlockName(frameIndex, color), '_')[0]) == Some(frameIndex)
  {
    var num := IntToString(frameIndex);
    NoUnderscoreInNat(if frameIndex < 0 then -frameIndex else frameIndex);
    assert '_' !in num;
    assert Join([num, color], "_") == BlockName(frameIndex, color);
    SplitJoin([num, color], '_');
    AtoiIntToString(frameIndex);
  }

  /** Different layers of different frames never share a block name. */
  lemma BlockNameInjective(i: int, c: string, j: int, d: string)
    requires '_' !in c && '_' !in d
    requires BlockName(i, c) == BlockName(j, d)
    ensures i == j && c == d
  {
    BlockNameRoundTrip(i, c);
    BlockNameRoundTrip(j, d);
  }

  /** `GenerateAllBasTextWithParallel` (and `GenerateAllBasText`, which fixes
      the bound at 4): the scripts of all frames, script `i` belonging to
      frame `i`, whatever order the workers finish in. If a frame's script
      cannot be produced the call never returns normally. */
  method GenerateAllBasTextWithParallel(frames: seq<FrameData>, viewBoxW: int, viewBoxH: int,
                                        framerate: real, startTime: real, fmt: real -> string, order: seq<nat>)
    returns (r: Result<seq<string>, FlipError>)
    requires IsCompletionOrder(order, |frames|)
    requires framerate != 0.0
    ensures r.Success? <==> forall i | 0 <= i < |frames| :: AllFlippable(frames[i].data)
    ensures r.Success? ==> |r.value| == |frames| && forall i | 0 <= i < |frames| ::
      r.value[i] == GenerateBasText(frames[i], viewBoxW, viewBoxH, framerate, startTime, fmt).value
    ensures r.Failure? ==> exists i | 0 <= i < |frames| ::
      GenerateBasText(frames[i], viewBoxW, viewBoxH, framerate, startTime, fmt) == Failure(r.error)
  {
    var done;
    r, done := RunBatch(frames, (f: FrameData) => GenerateBasText(f, viewBoxW, viewBoxH, framerate, startTime, fmt), order);
  }
}
